/**
 * The log alone. It may happen to be right after a statement that broke the
 * buffer; it stays right over everything that can follow exactly when no
 * statement did.
 */
module TxLogExact {
  import opened SqlText
  import opened SplitterRoundTrip
  import opened TxBuffer
  import opened TxRefinement
  import opened TxEngine
  import opened TxWords
  import opened TxNames
  import opened TxSession
  import opened TxSessionCases
  import Splitter
  import opened Wrappers

  // --- Continuations ---

  /** A continuation of agreeing statements, each clean where it stands. */
  ghost predicate CleanOn(lex: Lexicon, used: iset<string>, w: World, more: seq<Line>) {
    forall j | 0 <= j < |more| :: Agrees(lex, used, more[j]) && Clean(lex, PlayOn(lex, w, more[..j]), more[j])
  }

  /** The log is exact now and after every such continuation. */
  ghost predicate ExactFrom(lex: Lexicon, used: iset<string>, w: World) {
    forall more | CleanOn(lex, used, w, more) :: Exact(PlayOn(lex, w, more))
  }

  /** `back` rolls back to the savepoint of that name, on both sides. */
  ghost predicate GoesBack(lex: Lexicon, used: iset<string>, back: string, name: string) {
    back in used && Read(lex, back) == Some(Returns(name)) && Kind(back).Some? && Kind(back).value.RollbackTo?
  }

  /** Every name among the texts has a statement that rolls back to it. */
  ghost predicate Returnable(lex: Lexicon, used: iset<string>) {
    forall sql {:trigger NameRead(lex, sql)} | sql in used :: exists back :: GoesBack(lex, used, back, NameRead(lex, sql))
  }

  lemma PlayOnNext(lex: Lexicon, w: World, more: seq<Line>, line: Line)
    ensures PlayOn(lex, w, more + [line]) == Step(lex, PlayOn(lex, w, more), line)
  {
    assert (more + [line])[..|more|] == more;
  }

  lemma CleanFront(lex: Lexicon, used: iset<string>, w: World, more: seq<Line>)
    requires more != [] && CleanOn(lex, used, w, more)
    ensures CleanOn(lex, used, w, more[..|more| - 1])
  {
    var front := more[..|more| - 1];
    forall j | 0 <= j < |front| ensures Agrees(lex, used, front[j]) && Clean(lex, PlayOn(lex, w, front[..j]), front[j]) {
      assert front[..j] == more[..j] && front[j] == more[j];
    }
  }

  lemma CleanPush(lex: Lexicon, used: iset<string>, w: World, more: seq<Line>, line: Line)
    requires CleanOn(lex, used, w, more) && Agrees(lex, used, line) && Clean(lex, PlayOn(lex, w, more), line)
    ensures CleanOn(lex, used, w, more + [line])
  {
    var all := more + [line];
    forall j | 0 <= j < |all| ensures Agrees(lex, used, all[j]) && Clean(lex, PlayOn(lex, w, all[..j]), all[j]) {
      assert j < |more| ==> all[..j] == more[..j] && all[j] == more[j];
      assert j == |more| ==> all[..j] == more && all[j] == line;
    }
  }

  lemma {:induction false} StaysInStep(lex: Lexicon, used: iset<string>, w: World, more: seq<Line>)
    requires InStep(TextNaming(lex), used, w) && Coherent(TextNaming(lex), used) && CleanOn(lex, used, w, more)
    ensures InStep(TextNaming(lex), used, PlayOn(lex, w, more))
    decreases |more|
  {
    if more != [] {
      var n := |more| - 1;
      CleanFront(lex, used, w, more);
      StaysInStep(lex, used, w, more[..n]);
      StepStays(lex, used, PlayOn(lex, w, more[..n]), more[n]);
    }
  }

  // --- After an unclean statement ---

  lemma LogTooShort(w: World, work: Listing)
    requires Exact(w) && work != []
    ensures !Exact(World(None, w.committed + [work], None, w.logged))
    ensures forall b: Option<Buffer> :: !Exact(World(None, w.committed + [work], b, w.logged))
  {
    ScriptsPush(w.committed, work);
    assert |Scripts(w.committed + [work])| == |w.logged| + 1;
  }

  lemma LogTooLong(logged: seq<string>, committed: seq<Listing>, record: string)
    requires logged == Scripts(committed)
    ensures logged + [record] != Scripts(committed) && logged + [record] != Scripts(committed + [[]])
  {
    ScriptsPush(committed, []);
    assert |logged + [record]| == |logged| + 1;
  }

  // The worlds that the three kinds of unclean statements leave.
  lemma UncleanStep(lex: Lexicon, used: iset<string>, w: World, line: Line, m: Meaning)
    requires InStep(TextNaming(lex), used, w) && Agrees(lex, used, line) && Read(lex, line.sql) == Some(m)
    requires !Clean(lex, w, line)
    ensures w.tx.Some? && w.buffer.Some?
    ensures line.fate == Drops ==> Step(lex, w, line) == w.(tx := None)
    ensures line.fate != Drops && m == Opens ==> !w.tx.value.aborted && Step(lex, w, line) == w.(buffer := Some(EMPTY))
    ensures line.fate != Drops && m != Opens ==> m == Commits && w.tx.value.aborted && w.tx.value.e.live != []
    ensures line.fate != Drops && m != Opens ==>
      Step(lex, w, line) == World(None, w.committed, None, w.logged + [Join(w.buffer.value.statements)])
  {
    NothingMore(w.logged);
    NothingMore(w.committed);
  }

  /** One more statement, by what both sides read in it. */
  lemma StepOn(lex: Lexicon, used: iset<string>, w: World, more: seq<Line>, line: Line, at: World, m: Meaning,
               kind: Option<Control>, next: World)
    requires CleanOn(lex, used, w, more) && PlayOn(lex, w, more) == at
    requires Read(lex, line.sql) == Some(m) && Kind(line.sql) == kind && SameKind(m, kind, line.persists)
    requires (m.Saves? || m.Returns? ==> line.sql in used) && line.fate == Succeeds && m != Opens
    requires m == Commits && at.tx.Some? ==> !at.tx.value.aborted
    requires next == StepAs(TextNaming(lex), at, line, Some(m), kind)
    ensures CleanOn(lex, used, w, more + [line]) && PlayOn(lex, w, more + [line]) == next
  {
    CleanPush(lex, used, w, more, line);
    PlayOnNext(lex, w, more, line);
  }

  lemma Texts(lex: Lexicon) returns (x: string, commit: string)
    ensures Ordinary(lex, x) && Committing(lex, commit)
  {
    x, commit := "x", "commit";
    BeginAndCommit(lex);
    OrdinaryAgrees(lex, x, "");
    assert x + "" == x;
  }

  lemma RunBuffered(nm: Naming, w: World, x: string) returns (next: World)
    requires w.tx == None && w.buffer.Some?
    ensures next == StepAs(nm, w, Ran(x), Some(Runs), None)
    ensures next == World(None, w.committed + [[x]], next.buffer, w.logged)
  {
    NothingMore(w.logged);
    next := StepAs(nm, w, Ran(x), Some(Runs), None);
  }

  lemma DroppedShows(lex: Lexicon, used: iset<string>, w: World) returns (more: seq<Line>)
    requires Exact(w) && w.tx == None && w.buffer.Some?
    ensures CleanOn(lex, used, w, more) && !Exact(PlayOn(lex, w, more))
  {
    var x, commit := Texts(lex);
    var next := RunBuffered(TextNaming(lex), w, x);
    LogTooShort(w, [x]);
    StepOn(lex, used, w, [], Ran(x), w, Runs, None, next);
    more := [] + [Ran(x)];
  }

  lemma WorkShows(lex: Lexicon, used: iset<string>, w: World) returns (more: seq<Line>)
    requires Exact(w) && w.tx.Some? && !w.tx.value.aborted && w.tx.value.e.live != [] && w.buffer == Some(EMPTY)
    ensures CleanOn(lex, used, w, more) && !Exact(PlayOn(lex, w, more))
  {
    var x, commit := Texts(lex);
    NothingMore(w.logged);
    LogTooShort(w, w.tx.value.e.live);
    StepOn(lex, used, w, [], Ran(commit), w, Commits, Some(Commit),
           World(None, w.committed + [w.tx.value.e.live], None, w.logged));
    more := [] + [Ran(commit)];
  }

  // The engine and the buffer roll back to a savepoint whose mark is gone.
  lemma MarkGone(nm: Naming, w: World, x: string, back: Line, key: string)
    requires w.tx.Some? && !w.tx.value.aborted && w.tx.value.e.saves != [] && w.tx.value.e.live == []
    requires Prefixes(w.tx.value.e.saves, []) && w.buffer == Some(EMPTY) && back.fate == Succeeds
    requires nm.name(back.sql) == nm.name(w.tx.value.e.saves[|w.tx.value.e.saves| - 1].at)
    ensures var e := w.tx.value.e;
      var ran := w.(tx := Some(Open(e.(live := [x]), false)), buffer := Some(Buffer([x], [])));
      && StepAs(nm, w, Ran(x), Some(Runs), None) == ran
      && StepAs(nm, ran, back, Some(Returns(nm.name(back.sql))), Some(RollbackTo(key))) == ran.(tx := w.tx)
  {
    var e := w.tx.value.e;
    var last := |e.saves| - 1;
    NothingMore(w.logged);
    NothingMore(w.committed);
    assert [] + [x] == [x];
    assert LastOf(nm, e.saves, back.sql) == last;
    assert e.saves[..last + 1] == e.saves && e.saves[last].copy == [];
    assert Position([], key) == 0;
  }

  lemma MarkRun(lex: Lexicon, used: iset<string>, w: World, back: string, x: string, ran: World, gone: World)
    requires w.tx.Some? && !w.tx.value.aborted && w.tx.value.e.saves != [] && w.tx.value.e.live == []
    requires Prefixes(w.tx.value.e.saves, []) && w.buffer == Some(EMPTY) && Ordinary(lex, x)
    requires GoesBack(lex, used, back, NameRead(lex, w.tx.value.e.saves[|w.tx.value.e.saves| - 1].at))
    requires ran == w.(tx := Some(Open(w.tx.value.e.(live := [x]), false)), buffer := Some(Buffer([x], [])))
    requires gone == ran.(tx := w.tx)
    ensures CleanOn(lex, used, w, [] + [Ran(x)] + [Ran(back)]) && PlayOn(lex, w, [] + [Ran(x)] + [Ran(back)]) == gone
  {
    var nm := TextNaming(lex);
    var key := Kind(back).value.key;
    MarkGone(nm, w, x, Ran(back), key);
    StepOn(lex, used, w, [], Ran(x), w, Runs, None, ran);
    StepOn(lex, used, w, [] + [Ran(x)], Ran(back), ran, Returns(nm.name(back)), Some(RollbackTo(key)), gone);
  }

  lemma CommitOne(nm: Naming, w: World, line: Line, x: string)
    requires w.tx.Some? && !w.tx.value.aborted && w.tx.value.e.live == [] && w.buffer == Some(Buffer([x], []))
    requires line.fate == Succeeds
    ensures StepAs(nm, w, line, Some(Commits), Some(Commit)) == World(None, w.committed + [[]], None, w.logged + [x])
  {
    assert Join([x]) == x;
  }

  // A COMMIT with nothing left in the engine and one statement in the buffer.
  lemma CommitShows(lex: Lexicon, used: iset<string>, w: World, before: seq<Line>, gone: World, x: string, commit: string)
      returns (more: seq<Line>)
    requires CleanOn(lex, used, w, before) && PlayOn(lex, w, before) == gone && Committing(lex, commit)
    requires gone.tx.Some? && !gone.tx.value.aborted && gone.tx.value.e.live == [] && gone.buffer == Some(Buffer([x], []))
    requires gone.logged == w.logged && gone.committed == w.committed && Exact(w)
    ensures CleanOn(lex, used, w, more) && !Exact(PlayOn(lex, w, more))
  {
    LogTooLong(w.logged, w.committed, x);
    CommitOne(TextNaming(lex), gone, Ran(commit), x);
    StepOn(lex, used, w, before, Ran(commit), gone, Commits, Some(Commit),
           World(None, w.committed + [[]], None, w.logged + [x]));
    more := before + [Ran(commit)];
  }

  lemma MarkShows(lex: Lexicon, used: iset<string>, w: World, back: string) returns (more: seq<Line>)
    requires Exact(w) && w.tx.Some? && !w.tx.value.aborted && w.tx.value.e.saves != [] && w.tx.value.e.live == []
    requires Prefixes(w.tx.value.e.saves, []) && w.buffer == Some(EMPTY)
    requires GoesBack(lex, used, back, NameRead(lex, w.tx.value.e.saves[|w.tx.value.e.saves| - 1].at))
    ensures CleanOn(lex, used, w, more) && !Exact(PlayOn(lex, w, more))
  {
    var x, commit := Texts(lex);
    var ran := w.(tx := Some(Open(w.tx.value.e.(live := [x]), false)), buffer := Some(Buffer([x], [])));
    var gone := ran.(tx := w.tx);
    MarkRun(lex, used, w, back, x, ran, gone);
    more := CommitShows(lex, used, w, [] + [Ran(x)] + [Ran(back)], gone, x, commit);
  }

  lemma BackFor(lex: Lexicon, used: iset<string>, at: string) returns (back: string)
    requires Returnable(lex, used) && at in used
    ensures GoesBack(lex, used, back, NameRead(lex, at))
  {
    back :| GoesBack(lex, used, back, NameRead(lex, at));
  }

  // After a BEGIN over a savepoint, ...
  lemma SavepointShows(lex: Lexicon, used: iset<string>, w: World) returns (more: seq<Line>)
    requires Exact(w) && w.tx.Some? && !w.tx.value.aborted && w.buffer == Some(EMPTY) && Returnable(lex, used)
    requires w.tx.value.e.live == [] && w.tx.value.e.saves != [] && Prefixes(w.tx.value.e.saves, [])
    requires Spelled(w.tx.value.e.saves, used)
    ensures CleanOn(lex, used, w, more) && !Exact(PlayOn(lex, w, more))
  {
    var back := BackFor(lex, used, w.tx.value.e.saves[|w.tx.value.e.saves| - 1].at);
    more := MarkShows(lex, used, w, back);
  }

  // ... or over work.
  lemma NestedShows(lex: Lexicon, used: iset<string>, w: World) returns (more: seq<Line>)
    requires Exact(w) && w.tx.Some? && !w.tx.value.aborted && w.buffer == Some(EMPTY) && Returnable(lex, used)
    requires w.tx.value.e != Engine([], []) && Prefixes(w.tx.value.e.saves, w.tx.value.e.live)
    requires Spelled(w.tx.value.e.saves, used)
    ensures CleanOn(lex, used, w, more) && !Exact(PlayOn(lex, w, more))
  {
    if w.tx.value.e.live == [] {
      more := SavepointShows(lex, used, w);
    } else {
      more := WorkShows(lex, used, w);
    }
  }

  lemma InStepParts(nm: Naming, used: iset<string>, w: World)
    requires InStep(nm, used, w) && w.tx.Some?
    ensures Exact(w) && Prefixes(w.tx.value.e.saves, w.tx.value.e.live) && Spelled(w.tx.value.e.saves, used)
  {}

  /** After an unclean statement some clean continuation ends with a wrong log. */
  lemma UncleanShows(lex: Lexicon, used: iset<string>, w: World, line: Line, w': World) returns (more: seq<Line>)
    requires InStep(TextNaming(lex), used, w) && Agrees(lex, used, line) && w' == Step(lex, w, line)
    requires Returnable(lex, used) && !Clean(lex, w, line)
    ensures CleanOn(lex, used, w', more) && !Exact(PlayOn(lex, w', more))
  {
    var m := Read(lex, line.sql).value;
    UncleanStep(lex, used, w, line, m);
    InStepParts(TextNaming(lex), used, w);
    if line.fate == Drops {
      more := DroppedShows(lex, used, w');
    } else if m != Opens {
      LogTooLong(w.logged, w.committed, Join(w.buffer.value.statements));
      more := [];
    } else {
      more := NestedShows(lex, used, w');
    }
  }

  /** At a point in step, a statement is clean if and only if the log stays exact over all that can follow it. */
  lemma CleanIffExact(lex: Lexicon, used: iset<string>, w: World, line: Line)
    requires var nm := TextNaming(lex); InStep(nm, used, w) && Coherent(nm, used) && Agrees(lex, used, line)
    requires Returnable(lex, used)
    ensures Clean(lex, w, line) <==> ExactFrom(lex, used, Step(lex, w, line))
  {
    if Clean(lex, w, line) {
      StepStays(lex, used, w, line);
      InStepIsExact(lex, used, Step(lex, w, line));
    } else {
      var more := UncleanShows(lex, used, w, line, Step(lex, w, line));
    }
  }

  lemma InStepIsExact(lex: Lexicon, used: iset<string>, w: World)
    requires InStep(TextNaming(lex), used, w) && Coherent(TextNaming(lex), used)
    ensures ExactFrom(lex, used, w)
  {
    forall more | CleanOn(lex, used, w, more) ensures Exact(PlayOn(lex, w, more)) {
      StaysInStep(lex, used, w, more);
    }
  }

  // --- Sessions ---

  ghost predicate ExactAt(lex: Lexicon, used: iset<string>, lines: seq<Line>, i: nat)
    requires i <= |lines|
  {
    ExactFrom(lex, used, Play(lex, lines[..i]))
  }

  lemma PlayOne(lex: Lexicon, lines: seq<Line>, i: nat)
    requires i < |lines|
    ensures Play(lex, lines[..i + 1]) == Step(lex, Play(lex, lines[..i]), lines[i])
  {
    assert lines[..i + 1] == lines[..i] + [lines[i]];
    PlayOnNext(lex, START, lines[..i], lines[i]);
  }

  lemma ExactKeeps(lex: Lexicon, used: iset<string>, lines: seq<Line>, i: nat)
    requires i < |lines| && Coherent(TextNaming(lex), used) && Returnable(lex, used) && Agrees(lex, used, lines[i])
    requires InStepAt(lex, used, lines, i)
    ensures ExactAt(lex, used, lines, i + 1) <==> CleanAt(lex, lines, i)
    ensures InStepAt(lex, used, lines, i + 1) <==> CleanAt(lex, lines, i)
  {
    PlayOne(lex, lines, i);
    CleanIffExact(lex, used, Play(lex, lines[..i]), lines[i]);
    OneMore(lex, used, lines, i);
  }

  ghost predicate EitherAt(lex: Lexicon, used: iset<string>, lines: seq<Line>, i: nat)
    requires i < |lines|
  {
    ExactAt(lex, used, lines, i + 1) || CleanAt(lex, lines, i)
  }

  lemma {:induction false} InStepTo(lex: Lexicon, used: iset<string>, lines: seq<Line>, n: nat)
    requires n <= |lines| && Coherent(TextNaming(lex), used) && Returnable(lex, used)
    requires forall i | 0 <= i < |lines| :: Agrees(lex, used, lines[i])
    requires forall i | 0 <= i < |lines| :: EitherAt(lex, used, lines, i)
    ensures InStepAt(lex, used, lines, n)
    decreases n
  {
    if n == 0 {
      StartsInStep(lex, used, lines);
    } else {
      InStepTo(lex, used, lines, n - 1);
      ExactKeeps(lex, used, lines, n - 1);
      assert EitherAt(lex, used, lines, n - 1);
    }
  }

  lemma ExactIsClean(lex: Lexicon, used: iset<string>, lines: seq<Line>)
    requires Coherent(TextNaming(lex), used) && Returnable(lex, used)
    requires forall i | 0 <= i < |lines| :: Agrees(lex, used, lines[i])
    requires forall i | 0 <= i <= |lines| :: ExactAt(lex, used, lines, i)
    ensures forall i | 0 <= i < |lines| :: CleanAt(lex, lines, i)
  {
    forall i | 0 <= i < |lines| ensures CleanAt(lex, lines, i) {
      InStepTo(lex, used, lines, i);
      ExactKeeps(lex, used, lines, i);
      assert ExactAt(lex, used, lines, i + 1);
    }
  }

  lemma CleanIsExact(lex: Lexicon, used: iset<string>, lines: seq<Line>)
    requires Coherent(TextNaming(lex), used) && Returnable(lex, used)
    requires forall i | 0 <= i < |lines| :: Agrees(lex, used, lines[i])
    requires forall i | 0 <= i < |lines| :: CleanAt(lex, lines, i)
    ensures forall i | 0 <= i <= |lines| :: ExactAt(lex, used, lines, i)
  {
    forall i | 0 <= i <= |lines| ensures ExactAt(lex, used, lines, i) {
      InStepTo(lex, used, lines, i);
      InStepIsExact(lex, used, Play(lex, lines[..i]));
    }
  }

  /**
   * Over a session of statements that both sides classify and name alike: the log holds exactly the
   * committed transactions, at every point and after every clean continuation from it, if and only
   * if every statement is clean.
   */
  lemma SessionLogExact(lex: Lexicon, used: iset<string>, lines: seq<Line>)
    requires Coherent(TextNaming(lex), used) && Returnable(lex, used)
    requires forall i | 0 <= i < |lines| :: Agrees(lex, used, lines[i])
    ensures (forall i | 0 <= i <= |lines| :: ExactAt(lex, used, lines, i))
       <==> (forall i | 0 <= i < |lines| :: CleanAt(lex, lines, i))
  {
    if forall i | 0 <= i < |lines| :: CleanAt(lex, lines, i) {
      CleanIsExact(lex, used, lines);
    } else if forall i | 0 <= i <= |lines| :: ExactAt(lex, used, lines, i) {
      ExactIsClean(lex, used, lines);
    }
  }

  // --- Sessions in plain words ---

  lemma {:induction false} PlainToken(lex: Lexicon, s: string, l: Lexed)
    requires Plain(s) && Next(lex, s) == Some(l) && l.token.Word?
    ensures Identifier(l.token.text) && Lowered(l.token.text) == l.token.text
    decreases |s|
  {
    if s != "" {
      if Blank(s[0]) {
        NextBehind(lex, s);
        PlainTail(s, 1);
        PlainToken(lex, s[1..], l);
      } else {
        assert PlainChar(s[0]);
        NextAt(lex, s);
        if WordChar(s[0]) { WordIsIdentifier(s, l); }
      }
    }
  }

  lemma WordIsIdentifier(s: string, l: Lexed)
    requires Plain(s) && s != "" && WordChar(s[0]) && TokenAt(s) == Some(l)
    ensures l.token.Word? && Identifier(l.token.text) && Lowered(l.token.text) == l.token.text
  {
    var end := Splitter.TagEnd(s, 1);
    NoString(s);
    WordToken(s, end);
    WordSplit(s, end, s[..end], s[end..]);
    TagRun(s, 1);
    LoweredTwice(s[..end]);
    assert forall k :: 0 <= k < end ==> Lowered(s[..end])[k] == Lower(s[k]) && WordChar(s[k]);
  }

  lemma PlainNameIsBare(lex: Lexicon, s: string, name: string)
    requires Plain(s) && NameIn(lex, s) == Some(name)
    ensures BareIn(lex, name)
  {
    var l := PlainNext(lex, s);
    var l' := PlainNext(lex, l.rest);
    PlainToken(lex, s, l);
  }

  lemma PlainNameAfterIsBare(lex: Lexicon, s: string, name: string)
    requires Plain(s) && NameAfterSavepoint(lex, s) == Some(name)
    ensures BareIn(lex, name)
  {
    var l := PlainNext(lex, s);
    PlainNameIsBare(lex, if l.token == Word("savepoint") then l.rest else s, name);
  }

  lemma PlainReturnIsBare(lex: Lexicon, rest: string, name: string)
    requires Plain(rest) && RollsBack(lex, rest) == Some(Returns(name))
    ensures BareIn(lex, name)
  {
    var l := PlainNext(lex, rest);
    PlainNameAfterIsBare(lex, l.rest, name);
  }

  lemma PlainSavepointBare(lex: Lexicon, sql: string)
    requires sql in PlainSavepoints(lex)
    ensures BareIn(lex, NameRead(lex, sql))
  {
    var l := PlainNext(lex, sql);
    if Read(lex, sql).value.Saves? {
      PlainNameIsBare(lex, l.rest, NameRead(lex, sql));
    } else {
      PlainReturnIsBare(lex, l.rest, NameRead(lex, sql));
    }
  }

  lemma PlainBehind(kw: string, s: string)
    requires Plain(s) && (forall k :: 0 <= k < |kw| ==> WordChar(kw[k]) && !Digit(kw[k]))
    ensures Plain(kw + ([' '] + s))
  {
    var t := kw + ([' '] + s);
    assert forall k :: 0 <= k < |kw| ==> t[k] == kw[k];
    assert forall k :: 0 <= k < |s| ==> t[|kw| + 1 + k] == s[k];
    forall k | 0 <= k < |t| && Digit(t[k]) ensures k > 0 && WordChar(t[k - 1]) {
      assert k > |kw| + 1 && t[k] == s[k - |kw| - 1] && t[k - 1] == s[k - |kw| - 2];
    }
    forall j, k | 0 <= j < k < |t| && t[j] == ';' ensures !WordChar(t[k]) {
      assert t[j] == s[j - |kw| - 1] && t[k] == s[k - |kw| - 1];
    }
  }

  lemma PlainBack(name: string)
    requires Identifier(name)
    ensures Plain(Text(BackTo(name)))
  {
    assert Plain(name);
    PlainBehind("savepoint", name);
    PlainBehind("to", "savepoint" + ([' '] + name));
    PlainBehind("rollback", "to" + ([' '] + ("savepoint" + ([' '] + name))));
  }

  lemma PlainReturnable(lex: Lexicon)
    ensures Returnable(lex, PlainSavepoints(lex))
  {
    forall sql | sql in PlainSavepoints(lex)
      ensures exists back :: GoesBack(lex, PlainSavepoints(lex), back, NameRead(lex, sql))
    {
      var name := NameRead(lex, sql);
      PlainSavepointBare(lex, sql);
      BareName(lex, name);
      PlainBack(name);
      KeyOfRollback(lex, name);
      assert GoesBack(lex, PlainSavepoints(lex), Text(BackTo(name)), name);
    }
  }

  /** The same for every session in plain words, without a condition on names. */
  lemma PlainLogExact(lex: Lexicon, lines: seq<Line>)
    requires forall i | 0 <= i < |lines| :: PlainLine(lex, lines[i])
    ensures (forall i | 0 <= i <= |lines| :: ExactAt(lex, PlainSavepoints(lex), lines, i))
       <==> (forall i | 0 <= i < |lines| :: CleanAt(lex, lines, i))
  {
    PlainCoherent(lex);
    PlainReturnable(lex);
    forall i | 0 <= i < |lines| ensures Agrees(lex, PlainSavepoints(lex), lines[i]) {
      PlainLineAgrees(lex, lines[i]);
    }
    SessionLogExact(lex, PlainSavepoints(lex), lines);
  }

  // --- The log of one session may be right by chance ---

  lemma NestedThenBack(nm: Naming, x: string, begin: Line, rollback: Line)
    requires begin.fate == rollback.fate == Succeeds
    ensures var w := StepAs(nm, Working(x, false), begin, Some(Opens), Some(Begin));
            w == World(Some(Open(Engine([x], []), false)), [], Some(EMPTY), [])
            && StepAs(nm, w, rollback, Some(Aborts), Some(Rollback)) == START
  {}

  /** BEGIN, work, BEGIN, ROLLBACK: the second BEGIN is not clean, and the log is exact all the same. */
  lemma UncleanMayStayExact(lex: Lexicon, begin: string, x: string, rollback: string)
    requires Opening(lex, begin) && Ordinary(lex, x)
    requires Read(lex, rollback) == Some(Aborts) && Kind(rollback) == Some(Rollback)
    ensures var two := [Ran(begin)] + [Ran(x)];
      && !Clean(lex, Play(lex, two), Ran(begin))
      && Exact(Play(lex, two)) && Exact(Play(lex, two + [Ran(begin)]))
      && Exact(Play(lex, two + [Ran(begin)] + [Ran(rollback)]))
  {
    var nm, two := TextNaming(lex), [Ran(begin)] + [Ran(x)];
    var w := World(Some(Open(Engine([x], []), false)), [], Some(EMPTY), []);
    Opened(lex, begin, x);
    NestedThenBack(nm, x, Ran(begin), Ran(rollback));
    PlayAs(lex, two, Ran(begin), Working(x, false), Opens, Some(Begin), w);
    PlayAs(lex, two + [Ran(begin)], Ran(rollback), w, Aborts, Some(Rollback), START);
  }
}
