/**
 * Sessions that stay in step, and the statements that break it: a nested BEGIN,
 * a COMMIT of an aborted transaction, a failed COMMIT, a comment in front.
 */
module TxSessionCases {
  import opened SqlText
  import opened SplitterRoundTrip
  import opened TxBuffer
  import opened TxRefinement
  import opened TxEngine
  import opened TxWords
  import opened TxNames
  import opened TxSession
  import Splitter
  import opened Wrappers

  // --- Sessions in plain spelling ---

  ghost function PlainSavepoints(lex: Lexicon): iset<string> {
    iset sql | Plain(sql) && Read(lex, sql).Some? && (Read(lex, sql).value.Saves? || Read(lex, sql).value.Returns?)
  }

  lemma PlainKeys(lex: Lexicon, sql: string)
    requires sql in PlainSavepoints(lex)
    ensures NameRead(lex, sql) == KeyRead(sql)
  {
    PlainAgrees(lex, sql);
  }

  lemma PlainCoherent(lex: Lexicon)
    ensures Coherent(TextNaming(lex), PlainSavepoints(lex))
  {
    var nm := TextNaming(lex);
    forall a | a in PlainSavepoints(lex) ensures nm.name(a) == nm.key(a) {
      PlainKeys(lex, a);
    }
  }

  /** A statement in plain words, or one that is no transaction statement to either side. */
  predicate PlainLine(lex: Lexicon, line: Line) {
    Plain(line.sql) || (Read(lex, line.sql) == Some(Runs) && Kind(line.sql) == None)
  }

  lemma PlainLineAgrees(lex: Lexicon, line: Line)
    requires PlainLine(lex, line)
    ensures Agrees(lex, PlainSavepoints(lex), line)
  {
    if Plain(line.sql) { PlainAgrees(lex, line.sql); }
  }

  /** A session in plain words stays in step exactly when every statement is clean. */
  lemma PlainSession(lex: Lexicon, lines: seq<Line>)
    requires forall i | 0 <= i < |lines| :: PlainLine(lex, lines[i])
    ensures (forall i | 0 <= i <= |lines| :: InStepAt(lex, PlainSavepoints(lex), lines, i))
       <==> (forall i | 0 <= i < |lines| :: CleanAt(lex, lines, i))
  {
    PlainCoherent(lex);
    forall i | 0 <= i < |lines| ensures Agrees(lex, PlainSavepoints(lex), lines[i]) {
      PlainLineAgrees(lex, lines[i]);
    }
    SessionInStep(lex, PlainSavepoints(lex), lines);
  }

  predicate ControlWord(w: string) {
    w == "begin" || w == "start" || w == "commit" || w == "end" || w == "rollback" || w == "savepoint" || w == "release"
  }

  /** Any statement that opens with another word, and a blank after it, is ordinary to both sides. */
  lemma OrdinaryAgrees(lex: Lexicon, w: string, rest: string)
    requires Identifier(w) && !ControlWord(Lowered(w)) && (rest == "" || Blank(rest[0]))
    ensures Read(lex, w + rest) == Some(Runs) && Kind(w + rest) == None
  {
    IdentifierNext(lex, w, rest);
    FirstWord(w, rest);
    LoweredTwice(w);
  }

  // --- Sessions out of step ---

  function Ran(sql: string): Line {
    Line(sql, true, true, Succeeds)
  }

  lemma PlayNext(lex: Lexicon, lines: seq<Line>, line: Line)
    ensures Play(lex, lines + [line]) == Step(lex, Play(lex, lines), line)
  {
    assert (lines + [line])[..|lines|] == lines;
  }

  // A text that opens, commits or is ordinary to both sides.
  predicate Opening(lex: Lexicon, sql: string) {
    Read(lex, sql) == Some(Opens) && Kind(sql) == Some(Begin)
  }

  predicate Committing(lex: Lexicon, sql: string) {
    Read(lex, sql) == Some(Commits) && Kind(sql) == Some(Commit)
  }

  predicate Ordinary(lex: Lexicon, sql: string) {
    Read(lex, sql) == Some(Runs) && Kind(sql) == None
  }

  lemma KeywordText(lex: Lexicon, w: string)
    requires Identifier(w) && Lowered(w) == w
    ensures Next(lex, w) == Some(Lexed(Word(w), "")) && Words(w, 0, "") == [w]
  {
    assert w + "" == w;
    IdentifierNext(lex, w, "");
    FirstWord(w, "");
  }

  lemma BeginAndCommit(lex: Lexicon)
    ensures Opening(lex, "begin") && Committing(lex, "commit")
  {
    var begin, commit := "begin", "commit";
    assert Identifier(begin) && Lowered(begin) == begin && Identifier(commit) && Lowered(commit) == commit;
    KeywordText(lex, begin);
    KeywordText(lex, commit);
  }

  // One more statement, by what the two sides read in it.
  lemma PlayAs(lex: Lexicon, lines: seq<Line>, line: Line, w: World, m: Meaning, kind: Option<Control>, w': World)
    requires Play(lex, lines) == w && Read(lex, line.sql) == Some(m) && Kind(line.sql) == kind
    requires w' == StepAs(TextNaming(lex), w, line, Some(m), kind)
    ensures Play(lex, lines + [line]) == w'
  {
    PlayNext(lex, lines, line);
  }

  // An open transaction that ran one statement.
  function Working(x: string, aborted: bool): World {
    World(Some(Open(Engine([x], []), aborted)), [], Some(Buffer([x], [])), [])
  }

  lemma FirstSteps(nm: Naming, begin: Line, x: string)
    requires begin.fate == Succeeds
    ensures var w := StepAs(nm, START, begin, Some(Opens), Some(Begin));
            StepAs(nm, w, Ran(x), Some(Runs), None) == Working(x, false)
  {
    assert [] + [x] == [x];
  }

  // BEGIN and one statement.
  lemma Opened(lex: Lexicon, begin: string, x: string)
    requires Opening(lex, begin) && Ordinary(lex, x)
    ensures Play(lex, [Ran(begin)] + [Ran(x)]) == Working(x, false)
  {
    var nm := TextNaming(lex);
    var w := StepAs(nm, START, Ran(begin), Some(Opens), Some(Begin));
    PlayAs(lex, [], Ran(begin), START, Opens, Some(Begin), w);
    assert [] + [Ran(begin)] == [Ran(begin)];
    FirstSteps(nm, Ran(begin), x);
    PlayAs(lex, [Ran(begin)], Ran(x), w, Runs, None, Working(x, false));
  }

  lemma NestedSteps(nm: Naming, x: string, begin: Line, commit: Line)
    requires begin.fate == commit.fate == Succeeds
    ensures var w := StepAs(nm, Working(x, false), begin, Some(Opens), Some(Begin));
            StepAs(nm, w, commit, Some(Commits), Some(Commit)) == World(None, [[x]], None, [])
  {
    assert [] + [[x]] == [[x]];
  }

  /** BEGIN twice: the transaction is committed and not logged. */
  lemma NestedBeginLoses(lex: Lexicon, begin: string, x: string, commit: string)
    requires Opening(lex, begin) && Ordinary(lex, x) && Committing(lex, commit)
    ensures var w := Play(lex, [Ran(begin)] + [Ran(x)] + [Ran(begin)] + [Ran(commit)]);
            w.committed == [[x]] && w.logged == []
  {
    var nm, two := TextNaming(lex), [Ran(begin)] + [Ran(x)];
    var w := StepAs(nm, Working(x, false), Ran(begin), Some(Opens), Some(Begin));
    Opened(lex, begin, x);
    PlayAs(lex, two, Ran(begin), Working(x, false), Opens, Some(Begin), w);
    NestedSteps(nm, x, Ran(begin), Ran(commit));
    PlayAs(lex, two + [Ran(begin)], Ran(commit), w, Commits, Some(Commit), World(None, [[x]], None, []));
  }

  lemma AbortedSteps(nm: Naming, x: string, bad: Line, m: Meaning, kind: Option<Control>, commit: Line)
    requires bad.fate == Fails && commit.fate == Succeeds
    ensures StepAs(nm, Working(x, false), bad, Some(m), kind) == Working(x, true)
    ensures StepAs(nm, Working(x, true), commit, Some(Commits), Some(Commit)) == World(None, [], None, [x])
  {
    assert Join([x]) == x && [] + [x] == [x];
  }

  /** COMMIT after a failed statement: the transaction is rolled back and logged. */
  lemma AbortedCommitLogs(lex: Lexicon, begin: string, x: string, bad: Line, commit: string)
    requires Opening(lex, begin) && Ordinary(lex, x) && Committing(lex, commit)
    requires Read(lex, bad.sql).Some? && bad.fate == Fails
    ensures var w := Play(lex, [Ran(begin)] + [Ran(x)] + [bad] + [Ran(commit)]);
            w.committed == [] && w.logged == [x]
  {
    var two, m := [Ran(begin)] + [Ran(x)], Read(lex, bad.sql).value;
    Opened(lex, begin, x);
    AbortedSteps(TextNaming(lex), x, bad, m, Kind(bad.sql), Ran(commit));
    PlayAs(lex, two, bad, Working(x, false), m, Kind(bad.sql), Working(x, true));
    PlayAs(lex, two + [bad], Ran(commit), Working(x, true), Commits, Some(Commit), World(None, [], None, [x]));
  }

  lemma DroppedSteps(nm: Naming, x: string, bad: Line, y: string)
    requires bad.fate == Drops
    ensures var w := StepAs(nm, Working(x, false), bad, Some(Commits), Some(Commit));
            StepAs(nm, w, Ran(y), Some(Runs), None) == World(None, [[y]], Some(Buffer([x] + [y], [])), [])
  {
    assert [] + [[y]] == [[y]];
  }

  /** After a COMMIT that failed a statement of its own is committed and not logged. */
  lemma FailedCommitHides(lex: Lexicon, begin: string, x: string, bad: Line, y: string)
    requires Opening(lex, begin) && Ordinary(lex, x) && Ordinary(lex, y)
    requires Committing(lex, bad.sql) && bad.fate == Drops
    ensures var w := Play(lex, [Ran(begin)] + [Ran(x)] + [bad] + [Ran(y)]);
            w.committed == [[y]] && w.logged == []
  {
    var nm, two := TextNaming(lex), [Ran(begin)] + [Ran(x)];
    var w := StepAs(nm, Working(x, false), bad, Some(Commits), Some(Commit));
    Opened(lex, begin, x);
    PlayAs(lex, two, bad, Working(x, false), Commits, Some(Commit), w);
    DroppedSteps(nm, x, bad, y);
    PlayAs(lex, two + [bad], Ran(y), w, Runs, None, World(None, [[y]], Some(Buffer([x] + [y], [])), []));
  }

  // --- A comment in front of a transaction statement ---

  /** A block comment that holds no other and is no hint. */
  predicate Remark(note: string) {
    && Solid(note) && (note != "" ==> note[0] != '!' && note[0] != '+')
    && forall k :: 0 <= k < |note| ==> note[k] != '*' && note[k] != '/'
  }

  function Behind(note: string, sql: string): string {
    "/*" + (note + ("*/" + ([' '] + sql)))
  }

  lemma {:induction false} BlockCloses(s: string, j: nat, e: nat)
    requires j <= e && e + 2 <= |s| && s[e] == '*' && s[e + 1] == '/'
    requires forall k :: j <= k < e ==> s[k] != '*' && s[k] != '/'
    ensures Splitter.BlockEnd(s, j, 1) == Splitter.Extent(e + 2, false)
    decreases e - j
  {
    if j < e {
      BlockCloses(s, j + 1, e);
    } else {
      assert Splitter.BlockEnd(s, e + 2, 0) == Splitter.Extent(e + 2, false);
    }
  }

  lemma SkipRemark(lex: Lexicon, s: string, e: nat)
    requires StartsWith(s, "/*") && !StartsWith(s, "/*!") && !StartsWith(s, "/*+") && !StartsWith(s, "--")
    requires s[0] == '/' && e <= |s| && Splitter.BlockEnd(s, 2, 1) == Splitter.Extent(e, false)
    ensures Skip(lex, s) == Skip(lex, s[e..])
  {}

  lemma SameSkip(lex: Lexicon, a: string, b: string)
    requires Skip(lex, a) == Skip(lex, b)
    ensures Next(lex, a) == Next(lex, b)
  {}

  lemma RemarkSkipped(lex: Lexicon, note: string, sql: string)
    requires Remark(note)
    ensures Next(lex, Behind(note, sql)) == Next(lex, sql)
  {
    var s, e := Behind(note, sql), 2 + |note|;
    assert s[0] == '/' && s[1] == '*' && s[e] == '*' && s[e + 1] == '/';
    assert forall k :: 2 <= k < e ==> s[k] == note[k - 2];
    assert s[e + 2..] == [' '] + sql && s[2] != '!' && s[2] != '+';
    BlockCloses(s, 2, e);
    SkipRemark(lex, s, e + 2);
    SameSkip(lex, s, [' '] + sql);
    NextBehind(lex, [' '] + sql);
    assert ([' '] + sql)[1..] == sql;
  }

  lemma NoKind(words: seq<string>)
    requires words != [] && words[0] != "" && words[0][0] == '/'
    ensures KindOf(words) == None
  {}

  lemma RemarkWord(note: string, sql: string, w: string)
    requires Remark(note) && w == "/*" + (note + "*/")
    ensures Kind(Behind(note, sql)) == None
  {
    assert Behind(note, sql) == w + ([' '] + sql);
    assert w[0] == '/' && w[1] == '*' && forall k :: 2 <= k < |w| - 2 ==> w[k] == note[k - 2];
    FirstWord(w, [' '] + sql);
    NoKind([Lowered(w)] + Words([' '] + sql, 0, ""));
  }

  /** The engine reads through the comment, the buffer stops at it. */
  lemma CommentHides(lex: Lexicon, note: string, sql: string)
    requires Remark(note)
    ensures Read(lex, Behind(note, sql)) == Read(lex, sql) && Kind(Behind(note, sql)) == None
  {
    RemarkSkipped(lex, note, sql);
    RemarkWord(note, sql, "/*" + (note + "*/"));
  }

  /**
   * So a statement behind a comment takes a wrong step on some buffer exactly when it is a transaction
   * statement, a RELEASE classified as a read aside.
   */
  lemma CommentedStepWrong(lex: Lexicon, note: string, sql: string, m: Meaning, persists: bool)
    requires Remark(note) && Read(lex, sql) == Some(m)
    ensures var t := Behind(note, sql);
      (exists b :: !TakesRight(b, m, Kind(t), KeyRead(t), t, persists)) <==> m != Runs && (m.Releases? ==> persists)
  {
    CommentHides(lex, note, sql);
    StepExactly(lex, Behind(note, sql), m, persists);
  }

  lemma HiddenStep(nm: Naming, x: string, commit: Line)
    requires commit.fate == Succeeds && commit.persists
    ensures StepAs(nm, Working(x, false), commit, Some(Commits), None)
         == World(None, [[x]], Some(Buffer([x] + [commit.sql], [])), [])
  {
    assert [] + [[x]] == [[x]];
  }

  /** A COMMIT behind a comment: the transaction is committed and not logged. */
  lemma CommentedCommitLoses(lex: Lexicon, begin: string, x: string, note: string, commit: string)
    requires Opening(lex, begin) && Ordinary(lex, x) && Committing(lex, commit) && Remark(note)
    ensures var w := Play(lex, [Ran(begin)] + [Ran(x)] + [Ran(Behind(note, commit))]);
            w.committed == [[x]] && w.logged == []
  {
    var t := Behind(note, commit);
    Opened(lex, begin, x);
    CommentHides(lex, note, commit);
    HiddenStep(TextNaming(lex), x, Ran(t));
    PlayAs(lex, [Ran(begin)] + [Ran(x)], Ran(t), Working(x, false), Commits, None,
           World(None, [[x]], Some(Buffer([x] + [t], [])), []));
  }
}
