/**
 * The splitter as the source runs it: one index moving over the script, a
 * start index for the current statement and an inner loop for each kind of
 * token. Unterminated tokens leave the index past the end of the script.
 */
module SplitterLoop {
  import opened SqlText
  import opened Splitter

  /** What the scan still yields from its loop variables. */
  ghost function Pending(ts: Tests, sql: string, start: nat, i: nat, has: bool, mysql: bool): seq<string> {
    var at := if i <= |sql| then i else |sql|;
    if start <= at then Scan(ts, sql, start, at, has, mysql) else []
  }

  // The index a loop has reached, when it may have stepped over the end.
  ghost predicate Reached(sql: string, i: nat, at: nat) {
    i == at || (i >= |sql| && at == |sql|)
  }

  lemma Regroup(a: seq<string>, b: string, c: seq<string>)
    ensures a + ([b] + c) == (a + [b]) + c
  {}

  method EndOfLine(sql: string, from: nat) returns (j: nat)
    requires from <= |sql|
    ensures j == LineEnd(sql, from)
  {
    j := from;
    while j < |sql| && sql[j] != '\n'
      invariant from <= j <= |sql|
      invariant LineEnd(sql, from) == LineEnd(sql, j)
    {
      j := j + 1;
    }
  }

  method EndOfString(sql: string, from: nat, esc: bool) returns (j: nat)
    requires from <= |sql|
    ensures var r := StringEnd(sql, from, esc);
            if r.open then j >= |sql| else j + 1 == r.end
  {
    j := from;
    ghost var whole := StringEnd(sql, from, esc);
    while j < |sql|
      invariant j > |sql| ==> whole.open
      invariant j <= |sql| ==> whole == StringEnd(sql, j, esc)
    {
      if esc && sql[j] == '\\' {
        j := j + 2;
        continue;
      }
      if sql[j] == '\'' {
        if j + 1 < |sql| && sql[j + 1] == '\'' {
          j := j + 2;
          continue;
        }
        break;
      }
      j := j + 1;
    }
  }

  method EndOfIdent(sql: string, from: nat) returns (j: nat)
    requires from <= |sql|
    ensures var r := IdentEnd(sql, from);
            if r.open then j >= |sql| else j + 1 == r.end
  {
    j := from;
    while j < |sql| && sql[j] != '"'
      invariant j <= |sql|
      invariant IdentEnd(sql, from) == IdentEnd(sql, j)
    {
      j := j + 1;
    }
  }

  method EndOfBlock(sql: string, from: nat) returns (j: nat)
    requires from <= |sql|
    ensures j == BlockEnd(sql, from, 1).end
  {
    j := from;
    var depth: nat := 1;
    while j < |sql| && depth > 0
      invariant j <= |sql|
      invariant BlockEnd(sql, from, 1) == BlockEnd(sql, j, depth)
    {
      if sql[j] == '/' && j + 1 < |sql| && sql[j + 1] == '*' {
        depth := depth + 1;
        j := j + 2;
      } else if sql[j] == '*' && j + 1 < |sql| && sql[j + 1] == '/' {
        depth := depth - 1;
        j := j + 2;
      } else {
        j := j + 1;
      }
    }
  }

  /** The data lines of a COPY: where they end, and the first index past their terminator line. */
  method CopyBlock(end: string -> bool, sql: string, from: nat) returns (dataEnd: nat, next: nat)
    requires from <= |sql|
    ensures var d := CopyData(end, sql, from);
            dataEnd == d.next && Reached(sql, next, d.after)
  {
    var j := from;
    ghost var at: nat := from;
    while j < |sql|
      invariant at <= |sql| && Reached(sql, j, at)
      invariant CopyData(end, sql, from) == CopyData(end, sql, at)
    {
      var lineEnd := EndOfLine(sql, j);
      if end(sql[j..lineEnd]) {
        return j, lineEnd + 1;
      }
      at := PastLine(sql, j);
      j := lineEnd + 1;
    }
    return |sql|, |sql| + 1;
  }

  /** A possible dollar quote. */
  method EndOfDollar(sql: string, i: nat) returns (next: nat)
    requires i < |sql|
    ensures next == DollarEnd(sql, i, sql[i..i + TagLen(sql, i)]).end
  {
    next := i + 1;
    var te := TagEnd(sql, i + 1);
    if te < |sql| && sql[te] == '$' {
      var tag := sql[i..te + 1];
      var close := Find(sql, tag, te + 1);
      next := if close < |sql| then close + |tag| else |sql|;
    }
  }

  /** One token other than `;` and a meta-command: where the next one begins, and whether it is content. */
  method Token(sql: string, i: nat, mysql: bool) returns (next: nat, content: bool)
    requires i < |sql|
    ensures content == IsContent(sql, i) && Reached(sql, next, PieceEnd(sql, i, mysql).end)
  {
    var c := sql[i];
    next, content := i + 1, !AsciiWhite(c);
    if c == '\'' {
      var j := EndOfString(sql, i + 1, mysql || AfterE(sql, i));
      next, content := j + 1, true;
    } else if c == '"' {
      var j := EndOfIdent(sql, i + 1);
      next, content := j + 1, true;
    } else if c == '$' {
      next := EndOfDollar(sql, i);
      content := true;
    } else if c == '-' && i + 1 < |sql| && sql[i + 1] == '-' {
      var j := EndOfLine(sql, i);
      next, content := j + 1, false;
    } else if c == '/' && i + 1 < |sql| && sql[i + 1] == '*' {
      content := i + 2 < |sql| && sql[i + 2] == '!';
      next := EndOfBlock(sql, i + 2);
    }
  }

  lemma CopyPending(ts: Tests, sql: string, start: nat, i: nat, mysql: bool, dataEnd: nat, next: nat)
    requires start <= i < |sql| && sql[i] == ';' && ts.copyHead(sql[start..i])
    requires var d := CopyData(ts.terminator, sql, i + 1);
             dataEnd == d.next && Reached(sql, next, d.after)
    ensures start <= dataEnd <= |sql|
    ensures Pending(ts, sql, start, i, true, mysql)
         == [sql[start..dataEnd]] + Pending(ts, sql, next, next, false, mysql)
  {
    var after := CopyData(ts.terminator, sql, i + 1).after;
    assert Pending(ts, sql, next, next, false, mysql) == Scan(ts, sql, after, after, false, mysql);
  }

  /** The whole splitter; every script starts in the standard dialect. */
  method SplitStatements(ts: Tests, sql: string) returns (stmts: seq<string>)
    ensures stmts == Split(ts, sql, false)
  {
    stmts := [];
    var start: nat, i: nat := 0, 0;
    var has, mysql := false, false;
    while i < |sql|
      invariant start <= i && (has ==> start <= |sql|)
      invariant stmts + Pending(ts, sql, start, i, has, mysql) == Split(ts, sql, false)
      decreases |sql| - i
    {
      if sql[i] == '\\' && !has {
        var j := EndOfLine(sql, i);
        start := if j < |sql| then j + 1 else j;
        i := j + 1;
      } else if sql[i] == ';' {
        if has {
          var head := sql[start..i];
          if ts.copyHead(head) {
            var dataEnd, next := CopyBlock(ts.terminator, sql, i + 1);
            CopyPending(ts, sql, start, i, mysql, dataEnd, next);
            Regroup(stmts, sql[start..dataEnd], Pending(ts, sql, next, next, false, mysql));
            stmts := stmts + [sql[start..dataEnd]];
            start, i, has := next, next, false;
            continue;
          }
          mysql := ts.note(head, mysql);
          Regroup(stmts, head, Pending(ts, sql, i + 1, i + 1, false, mysql));
          stmts := stmts + [head];
        }
        start, i, has := i + 1, i + 1, false;
      } else {
        var next, content := Token(sql, i, mysql);
        i, has := next, has || content;
      }
    }
    if has {
      stmts := stmts + [sql[start..]];
    }
  }
}
