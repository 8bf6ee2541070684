/**
 * The two readings of a statement text: the words the buffer looks at against
 * the tokens the engine parses.
 */
module TxWords {
  import opened SqlText
  import opened TxBuffer
  import opened TxEngine
  import Splitter
  import opened Wrappers

  predicate OneWord(w: string) {
    w != "" && forall k :: 0 <= k < |w| ==> !Divides(w[k])
  }

  lemma {:induction false} WordsShift(a: string, b: string, i: nat, cur: string)
    requires i <= |b|
    ensures Words(a + b, |a| + i, cur) == Words(b, i, cur)
    decreases |b| - i
  {
    if i < |b| {
      assert (a + b)[|a| + i] == b[i];
      WordsShift(a, b, i + 1, "");
      WordsShift(a, b, i + 1, cur + [b[i]]);
    }
  }

  // Reading to the end of a word that `rest` does not continue.
  lemma {:induction false} WordEnds(w: string, rest: string, i: nat, sql: string)
    requires OneWord(w) && i <= |w| && sql == w + rest && (rest == "" || Divides(rest[0]))
    ensures Words(sql, i, w[..i]) == [Lowered(w)] + (if rest == "" then [] else Words(sql, |w| + 1, ""))
    decreases |w| - i
  {
    if i < |w| {
      assert sql[i] == w[i] && w[..i] + [w[i]] == w[..i + 1];
      WordEnds(w, rest, i + 1, sql);
    } else {
      assert w[..i] == w;
      if rest != "" { assert sql[i] == rest[0]; }
    }
  }

  lemma DividerSkipped(c: char, s: string)
    requires Divides(c)
    ensures Words([c] + s, 0, "") == Words(s, 0, "")
  {
    WordsShift([c], s, 0, "");
  }

  /** A word and what follows it, read apart. */
  lemma FirstWord(w: string, rest: string)
    requires OneWord(w) && (rest == "" || Divides(rest[0]))
    ensures Words(w + rest, 0, "") == [Lowered(w)] + Words(rest, 0, "")
  {
    var sql := w + rest;
    assert w[..0] == "";
    WordEnds(w, rest, 0, sql);
    if rest != "" {
      WordsShift(w, rest, 1, "");
      assert Words(rest, 0, "") == Words(rest, 1, "");
    }
  }

  // --- Plain texts ---

  predicate PlainChar(c: char) {
    WordChar(c) || Blank(c) || c == ';'
  }

  /**
   * Words of letters, digits and underscores between blanks, none of them starting with a digit,
   * and semicolons only at the end.
   */
  predicate Plain(s: string) {
    && (forall k :: 0 <= k < |s| ==> PlainChar(s[k]))
    && (forall k :: 0 <= k < |s| && Digit(s[k]) ==> k > 0 && WordChar(s[k - 1]))
    && (forall j, k :: 0 <= j < k < |s| && s[j] == ';' ==> !WordChar(s[k]))
  }

  lemma PlainTail(s: string, n: nat)
    requires Plain(s) && n <= |s| && (n < |s| ==> !Digit(s[n]))
    ensures Plain(s[n..])
  {
    forall k | 0 <= k < |s| - n && Digit(s[n..][k]) ensures k > 0 && WordChar(s[n..][k - 1]) {
      assert s[n..][k] == s[n + k];
    }
  }

  lemma {:induction false} NoWords(s: string, i: nat)
    requires i <= |s| && forall k :: 0 <= k < |s| ==> Divides(s[k])
    ensures Words(s, i, "") == []
    decreases |s| - i
  {
    if i < |s| { NoWords(s, i + 1); }
  }

  lemma {:induction false} TagRun(s: string, j: nat)
    requires j <= |s|
    ensures var k := Splitter.TagEnd(s, j);
            (forall i :: j <= i < k ==> WordChar(s[i])) && (k < |s| ==> !WordChar(s[k]))
    decreases |s| - j
  {
    if j < |s| && WordChar(s[j]) { TagRun(s, j + 1); }
  }

  lemma WordToken(s: string, end: nat)
    requires s != "" && Alpha(s[0]) && !OpensString(s) && end == Splitter.TagEnd(s, 1)
    ensures TokenAt(s) == Some(Lexed(Word(Lowered(s[..end])), s[end..]))
  {}

  lemma NoString(s: string)
    requires Plain(s) && s != ""
    ensures !OpensString(s)
  {
    assert |s| > 1 ==> PlainChar(s[1]);
  }

  // The word at the front of a plain text.
  lemma WordSplit(s: string, end: nat, w: string, rest: string)
    requires Plain(s) && s != "" && WordChar(s[0]) && end == Splitter.TagEnd(s, 1)
    requires w == s[..end] && rest == s[end..]
    ensures OneWord(w) && s == w + rest && (rest != "" ==> !WordChar(rest[0]) && Divides(rest[0]))
  {
    TagRun(s, 1);
    assert forall k :: 0 <= k < |w| ==> w[k] == s[k] && WordChar(s[k]);
    assert rest != "" ==> rest[0] == s[end] && PlainChar(s[end]);
  }

  // The token at the front of a plain text that begins with a word.
  lemma PlainWord(s: string) returns (l: Lexed)
    requires Plain(s) && s != "" && WordChar(s[0])
    ensures TokenAt(s) == Some(l) && l.token.Word? && Plain(l.rest)
    ensures Words(s, 0, "") == [l.token.text] + Words(l.rest, 0, "")
  {
    var end := Splitter.TagEnd(s, 1);
    var w, rest := s[..end], s[end..];
    l := Lexed(Word(Lowered(w)), rest);
    NoString(s);
    WordToken(s, end);
    WordSplit(s, end, w, rest);
    PlainTail(s, end);
    FirstWord(w, rest);
  }

  lemma PlainStops(s: string)
    requires Plain(s) && s != "" && s[0] == ';'
    ensures TokenAt(s) == Some(Lexed(Other, s[1..])) && Words(s, 0, "") == []
  {
    forall k | 0 <= k < |s| ensures Divides(s[k]) {
      assert PlainChar(s[k]);
    }
    NoWords(s, 0);
  }

  lemma NextAt(lex: Lexicon, s: string)
    requires s != "" && !Blank(s[0]) && s[0] != '-' && s[0] != '/' && s[0] != '*'
    ensures Next(lex, s) == TokenAt(s)
  {}

  lemma NextBehind(lex: Lexicon, s: string)
    requires s != "" && Blank(s[0])
    ensures Next(lex, s) == Next(lex, s[1..])
  {}

  lemma BlankSkipped(s: string)
    requires Plain(s) && s != "" && Blank(s[0])
    ensures Plain(s[1..]) && Words(s, 0, "") == Words(s[1..], 0, "")
  {
    PlainTail(s, 1);
    assert s == [s[0]] + s[1..];
    DividerSkipped(s[0], s[1..]);
  }

  /** In a plain text the next token is the next word, or the text has no more words. */
  lemma {:induction false} PlainNext(lex: Lexicon, s: string) returns (l: Lexed)
    requires Plain(s)
    ensures Next(lex, s) == Some(l)
    ensures l.token.Word? || l.token == End || l.token == Other
    ensures l.token.Word? ==> Plain(l.rest) && Words(s, 0, "") == [l.token.text] + Words(l.rest, 0, "")
    ensures !l.token.Word? ==> Words(s, 0, "") == []
    decreases |s|
  {
    if s == "" {
      l := Lexed(End, s);
    } else if Blank(s[0]) {
      NextBehind(lex, s);
      BlankSkipped(s);
      l := PlainNext(lex, s[1..]);
    } else {
      assert PlainChar(s[0]);
      NextAt(lex, s);
      if WordChar(s[0]) {
        l := PlainWord(s);
      } else {
        PlainStops(s);
        l := Lexed(Other, s[1..]);
      }
    }
  }

  /** How the buffer should classify a statement. */
  function Wanted(m: Meaning): Option<Control> {
    match m
    case Opens => Some(Begin)
    case Commits => Some(Commit)
    case Aborts => Some(Rollback)
    case Saves(name) => Some(Savepoint(name))
    case Returns(name) => Some(RollbackTo(name))
    case Releases(_) => Some(Release)
    case Runs => None
  }

  // The name in a plain text is its first word.
  lemma PlainName(lex: Lexicon, s: string, name: Option<string>)
    requires Plain(s) && name == NameIn(lex, s)
    ensures name.Some? ==> Words(s, 0, "") != [] && Words(s, 0, "")[0] == name.value
  {
    var l := PlainNext(lex, s);
    if l.token.Word? {
      var l' := PlainNext(lex, l.rest);
    }
  }

  lemma PlainNameAfterSavepoint(lex: Lexicon, s: string, name: Option<string>)
    requires Plain(s) && name == NameAfterSavepoint(lex, s)
    ensures name.Some? ==>
      var w := Words(s, 0, "");
      w != [] && if w[0] != "savepoint" then w[0] == name.value else |w| > 1 && w[1] == name.value
  {
    var l := PlainNext(lex, s);
    if l.token == Word("savepoint") {
      PlainName(lex, l.rest, name);
    } else {
      PlainName(lex, s, name);
    }
  }

  lemma PlainBackTo(lex: Lexicon, rest: string, name: Option<string>)
    requires Plain(rest) && name == NameAfterSavepoint(lex, rest)
    ensures name.Some? ==> KindOf(["rollback"] + (["to"] + Words(rest, 0, ""))) == Some(RollbackTo(name.value))
  {
    PlainNameAfterSavepoint(lex, rest, name);
    if name.Some? { BackWords(["to"] + Words(rest, 0, ""), Words(rest, 0, ""), name.value); }
  }

  lemma RollsBackOn(lex: Lexicon, rest: string, l: Lexed)
    requires Next(lex, rest) == Some(l)
    ensures RollsBack(lex, rest)
         == if l.token == Word("to") then Named(NameAfterSavepoint(lex, l.rest), n => Returns(n)) else Some(Aborts)
  {}

  lemma PlainRollback(lex: Lexicon, rest: string)
    requires Plain(rest)
    ensures var m := RollsBack(lex, rest);
      m.Some? ==> KindOf(["rollback"] + Words(rest, 0, "")) == Wanted(m.value)
  {
    var l := PlainNext(lex, rest);
    RollsBackOn(lex, rest, l);
    if l.token == Word("to") {
      PlainBackTo(lex, l.rest, NameAfterSavepoint(lex, l.rest));
    } else {
      WholeBack(Words(rest, 0, ""));
    }
  }

  lemma BackWords(words: seq<string>, w: seq<string>, name: string)
    requires words == ["to"] + w && w != []
    requires if w[0] != "savepoint" then w[0] == name else |w| > 1 && w[1] == name
    ensures KindOf(["rollback"] + words) == Some(RollbackTo(name))
  {
    assert ["rollback"] + words == ["rollback", "to"] + w;
  }

  lemma WholeBack(words: seq<string>)
    requires words == [] || words[0] != "to"
    ensures KindOf(["rollback"] + words) == Some(Rollback)
  {}

  lemma LoweredTwice(s: string)
    ensures Lowered(Lowered(s)) == Lowered(s)
  {}

  lemma WordsLowered(s: string, i: nat, cur: string)
    requires i <= |s|
    ensures forall w :: w in Words(s, i, cur) ==> Lowered(w) == w
    decreases |s| - i
  {
    LoweredTwice(cur);
  }

  lemma PlainHead(lex: Lexicon, w: string, rest: string)
    requires Plain(rest) && Lowered(w) == w && w != "rollback" && w != "savepoint"
    ensures var m := Statement(lex, Word(w), rest);
      m.Some? ==> KindOf([w] + Words(rest, 0, "")) == Wanted(m.value)
  {}

  lemma PlainSavepoint(lex: Lexicon, rest: string)
    requires Plain(rest)
    ensures var m := Statement(lex, Word("savepoint"), rest);
      m.Some? ==> KindOf(["savepoint"] + Words(rest, 0, "")) == Wanted(m.value)
  {
    PlainName(lex, rest, NameIn(lex, rest));
  }

  /** On plain texts the buffer classifies every accepted statement as the engine reads it, names included. */
  lemma PlainAgrees(lex: Lexicon, sql: string)
    requires Plain(sql)
    ensures var m := Read(lex, sql);
      m.Some? ==> Kind(sql) == Wanted(m.value)
  {
    var l := PlainNext(lex, sql);
    if l.token.Word? {
      var w, rest := l.token.text, l.rest;
      WordsLowered(sql, 0, "");
      assert w == Words(sql, 0, "")[0];
      if w == "rollback" {
        PlainRollback(lex, rest);
      } else if w == "savepoint" {
        PlainSavepoint(lex, rest);
      } else {
        PlainHead(lex, w, rest);
      }
    }
  }
}
