/**
 * Whole sessions on statement texts: the engine with its nested, aborted and
 * dropped transactions beside the buffer, and what of it reaches the log.
 */
module TxSession {
  import opened SqlText
  import opened SplitterRoundTrip
  import opened TxBuffer
  import opened TxRefinement
  import opened TxEngine
  import opened Wrappers

  // --- The engine ---

  /**
   * How a statement ends: refused by the parser, failed, failed with its whole transaction dropped
   * (a COMMIT whose deferred checks fail, a caught panic), or executed as far as the engine's state allows.
   */
  datatype Fate = Rejected | Fails | Drops | Succeeds

  /** `modified`: the statement changed something; `persists`: its text is classified as no read. */
  datatype Line = Line(sql: string, modified: bool, persists: bool, fate: Fate)

  /** An open transaction; after a failure only its end or a rollback to a savepoint is accepted. */
  datatype Open = Open(e: Engine<Listing>, aborted: bool)

  datatype Took = Took(tx: Option<Open>, accepted: bool, committed: seq<Listing>)

  function NameRead(lex: Lexicon, sql: string): string {
    match Read(lex, sql)
    case Some(Saves(name)) => name
    case Some(Returns(name)) => name
    case Some(Releases(name)) => name
    case _ => ""
  }

  function KeyRead(sql: string): string {
    match Kind(sql)
    case Some(Savepoint(key)) => key
    case Some(RollbackTo(key)) => key
    case _ => ""
  }

  /** Savepoints spelled by whole statement texts. */
  function TextNaming(lex: Lexicon): Naming {
    Naming(sql => NameRead(lex, sql), sql => KeyRead(sql))
  }

  function SavepointOp(m: Meaning, sql: string): Op
    requires m.Saves? || m.Returns? || m.Releases?
  {
    match m
    case Saves(_) => MakeSave(sql)
    case Returns(_) => BackTo(sql)
    case Releases(_) => Drop(sql)
  }

  function TakesOp(nm: Naming, o: Open, op: Op): Took {
    if Accepts(nm, o.e, op) then Took(Some(Open(EngineStep(nm, Append, o.e, op), false)), true, [])
    else Took(Some(o.(aborted := true)), false, [])
  }

  function Inside(nm: Naming, o: Open, m: Meaning, line: Line): Took {
    match m
    case Opens => Took(Some(o), true, [])
    case Commits => Took(None, true, [o.e.live])
    case Aborts => Took(None, true, [])
    case Runs =>
      if line.persists then TakesOp(nm, o, Run(line.sql)) else Took(Some(o), true, [])
    case _ => TakesOp(nm, o, SavepointOp(m, line.sql))
  }

  /** In an aborted transaction a COMMIT rolls back and is accepted. */
  function InAborted(nm: Naming, o: Open, m: Meaning, line: Line): Took {
    match m
    case Commits => Took(None, true, [])
    case Aborts => Took(None, true, [])
    case Returns(_) => TakesOp(nm, o, BackTo(line.sql))
    case _ => Took(Some(o), false, [])
  }

  function Outside(m: Meaning, line: Line): Took {
    match m
    case Opens => Took(Some(Open(Engine([], []), false)), true, [])
    case Commits => Took(None, true, [])
    case Aborts => Took(None, true, [])
    case Runs => Took(None, true, if line.modified && line.persists then [[line.sql]] else [])
    case _ => Took(None, false, [])
  }

  /** The engine on a statement that it reads as `m`. */
  function EngineTakes(nm: Naming, tx: Option<Open>, m: Option<Meaning>, line: Line): Took {
    if m == None then Took(tx, false, [])
    else
      match line.fate
      case Rejected => Took(tx, false, [])
      case Drops => Took(None, false, [])
      case Fails => Took(if tx.Some? then Some(tx.value.(aborted := true)) else None, false, [])
      case Succeeds =>
        if tx == None then Outside(m.value, line)
        else if tx.value.aborted then InAborted(nm, tx.value, m.value, line)
        else Inside(nm, tx.value, m.value, line)
  }

  // --- The session ---

  /** `committed` lists the engine's transactions, `logged` the records written for them. */
  datatype World = World(tx: Option<Open>, committed: seq<Listing>, buffer: Option<Buffer>, logged: seq<string>)

  const START := World(None, [], None, [])

  function Written(record: Option<string>): seq<string> {
    if record.Some? then [record.value] else []
  }

  /** A statement that one side reads as `m` and the other as `kind`. Only accepted ones reach buffer and log. */
  function StepAs(nm: Naming, w: World, line: Line, m: Option<Meaning>, kind: Option<Control>): World {
    var took := EngineTakes(nm, w.tx, m, line);
    if !took.accepted then w.(tx := took.tx)
    else
      World(took.tx, w.committed + took.committed,
            After(w.buffer, kind, line.sql, line.persists),
            w.logged + Written(Script(w.buffer, kind, line.sql, line.modified && line.persists)))
  }

  function Step(lex: Lexicon, w: World, line: Line): World {
    StepAs(TextNaming(lex), w, line, Read(lex, line.sql), Kind(line.sql))
  }

  /** A session that goes on from `w`. */
  function PlayOn(lex: Lexicon, w: World, lines: seq<Line>): World {
    if lines == [] then w else Step(lex, PlayOn(lex, w, lines[..|lines| - 1]), lines[|lines| - 1])
  }

  /** A session from its beginning. */
  function Play(lex: Lexicon, lines: seq<Line>): World {
    PlayOn(lex, START, lines)
  }

  /** The log that the committed transactions call for: one record each, unless it changed nothing. */
  function Scripts(committed: seq<Listing>): seq<string> {
    if committed == [] then []
    else
      var last := committed[|committed| - 1];
      Scripts(committed[..|committed| - 1]) + (if last == [] then [] else [Join(last)])
  }

  lemma ScriptsPush(committed: seq<Listing>, last: Listing)
    ensures Scripts(committed + [last]) == Scripts(committed) + (if last == [] then [] else [Join(last)])
  {
    assert (committed + [last])[..|committed|] == committed;
  }

  /** The log holds exactly the committed transactions. */
  predicate Exact(w: World) {
    w.logged == Scripts(w.committed)
  }

  /** The log is exact, and the buffer is what the open transaction would keep, marks included. */
  ghost predicate InStep(nm: Naming, used: iset<string>, w: World) {
    && Exact(w)
    && (w.tx.Some? <==> w.buffer.Some?)
    && (w.tx.Some? && w.buffer.Some? ==>
          Related(nm, Pair(w.tx.value.e, w.buffer.value)) && Spelled(w.tx.value.e.saves, used))
  }

  // --- Classification ---

  /** The buffer's class of a text fits what the engine reads in it. */
  predicate SameKind(m: Meaning, kind: Option<Control>, persists: bool) {
    match m
    case Opens => kind == Some(Begin)
    case Commits => kind == Some(Commit)
    case Aborts => kind == Some(Rollback)
    case Saves(_) => kind.Some? && kind.value.Savepoint?
    case Returns(_) => kind.Some? && kind.value.RollbackTo?
    case Releases(_) => kind == Some(Release) || (kind == None && !persists)
    case Runs => kind == None || (kind == Some(Release) && !persists)
  }

  /** What an accepted statement should do to the buffer of an open transaction. */
  function BufferTakes(b: Buffer, m: Meaning, key: string, sql: string, persists: bool): Option<Buffer> {
    match m
    case Opens => Some(EMPTY)
    case Commits => None
    case Aborts => None
    case Saves(_) => Some(Mark(b, key))
    case Returns(_) => Some(RollBack(b, key))
    case Releases(_) => Some(b)
    case Runs => Some(if persists then b.(statements := b.statements + [sql]) else b)
  }

  function ScriptTaken(b: Buffer, m: Meaning): Option<string> {
    if m == Commits && b.statements != [] then Some(Join(b.statements)) else None
  }

  predicate TakesRight(b: Buffer, m: Meaning, kind: Option<Control>, key: string, sql: string, persists: bool) {
    && After(Some(b), kind, sql, persists) == BufferTakes(b, m, key, sql, persists)
    && Script(Some(b), kind, sql, false) == ScriptTaken(b, m)
  }

  // A buffer on which every wrong step shows.
  function Probe(key: string): Buffer {
    Buffer(["x"], [(key, 0)])
  }

  lemma ProbeSteps(key: string, sql: string)
    ensures Mark(Probe(key), key) == Buffer(["x"], [(key, 1)])
    ensures RollBack(Probe(key), key) == Buffer([], [(key, 0)])
    ensures |Probe(key).statements + [sql]| == 2
  {
    assert [(key, 0)][1..] == [] && [(key, 0)][..1] == [(key, 0)];
    assert Without([(key, 0)], key) == [];
  }

  predicate KeyFits(kind: Option<Control>, key: string) {
    kind.Some? && (kind.value.Savepoint? || kind.value.RollbackTo?) ==> kind.value.key == key
  }

  lemma ProbeShows(m: Meaning, kind: Option<Control>, key: string, sql: string, persists: bool)
    requires KeyFits(kind, key) && TakesRight(Probe(key), m, kind, key, sql, persists)
    ensures SameKind(m, kind, persists)
  {
    ProbeSteps(key, sql);
  }

  /**
   * For every statement text the buffer's step and record are the right ones, on every buffer, if
   * and only if its class fits what the engine reads.
   */
  lemma StepExactly(lex: Lexicon, sql: string, m: Meaning, persists: bool)
    requires Read(lex, sql) == Some(m)
    ensures (forall b :: TakesRight(b, m, Kind(sql), KeyRead(sql), sql, persists)) <==> SameKind(m, Kind(sql), persists)
  {
    if forall b :: TakesRight(b, m, Kind(sql), KeyRead(sql), sql, persists) {
      ProbeShows(m, Kind(sql), KeyRead(sql), sql, persists);
    }
  }

  // --- When a session stays in step ---

  ghost predicate Agrees(lex: Lexicon, used: iset<string>, line: Line) {
    Read(lex, line.sql).Some? ==>
      var m := Read(lex, line.sql).value;
      SameKind(m, Kind(line.sql), line.persists) && (m.Saves? || m.Returns? ==> line.sql in used)
  }

  /**
   * The three ways to lose step inside an open transaction: the engine drops it while failing, a
   * BEGIN that it takes as a no-op although there is work or a savepoint, a COMMIT of an aborted
   * transaction that holds work. The last two are guards on the state; the first is an outcome of
   * the statement, a COMMIT whose deferred checks fail or a caught panic.
   */
  predicate Clean(lex: Lexicon, w: World, line: Line) {
    Read(lex, line.sql).Some? && w.tx.Some? ==>
      var m, o := Read(lex, line.sql).value, w.tx.value;
      && line.fate != Drops
      && (line.fate == Succeeds && m == Opens && !o.aborted ==> o.e == Engine([], []))
      && (line.fate == Succeeds && m == Commits && o.aborted ==> o.e.live == [])
  }

  ghost predicate InTouch(nm: Naming, used: iset<string>, e: Engine<Listing>, b: Buffer) {
    Related(nm, Pair(e, b)) && Spelled(e.saves, used)
  }

  lemma RunInTouch(nm: Naming, used: iset<string>, e: Engine<Listing>, b: Buffer, sql: string)
    requires InTouch(nm, used, e, b)
    ensures InTouch(nm, used, EngineStep(nm, Append, e, Run(sql)), BufferStep(nm, b, Run(sql)))
  {}

  lemma OpInTouch(nm: Naming, used: iset<string>, e: Engine<Listing>, b: Buffer, op: Op)
    requires InTouch(nm, used, e, b) && Coherent(nm, used) && Accepts(nm, e, op)
    requires op.Run? || op.Drop? || op.at in used
    ensures InTouch(nm, used, EngineStep(nm, Append, e, op), BufferStep(nm, b, op))
  {
    match op
    case Run(sql) => RunInTouch(nm, used, e, b, sql);
    case MakeSave(at) => KeepsSave(nm, Pair(e, b), at, used);
    case BackTo(at) => KeepsBack(nm, Pair(e, b), at, used);
    case Drop(at) => KeepsDrop(nm, Pair(e, b), at);
  }

  lemma FreshInTouch(nm: Naming, used: iset<string>, e: Engine<Listing>)
    ensures InTouch(nm, used, e, EMPTY) <==> e == Engine([], [])
  {
    if InTouch(nm, used, e, EMPTY) {
      assert |Image(nm, e.saves)| == |e.saves|;
    }
  }

  // A record written for a transaction that the engine did not commit shows in the log.
  lemma ExtraRecord(logged: seq<string>, record: Option<string>)
    ensures logged + Written(record) == logged <==> record == None
  {
    assert |logged + Written(record)| == |logged| + |Written(record)|;
  }

  lemma NothingMore<T>(xs: seq<T>)
    ensures xs + [] == xs
  {}

  // The step of an accepted statement, part by part.
  lemma Accepted(lex: Lexicon, w: World, line: Line, took: Took, kind: Option<Control>)
    requires took == EngineTakes(TextNaming(lex), w.tx, Read(lex, line.sql), line)
    requires took.accepted && kind == Kind(line.sql)
    ensures Step(lex, w, line) ==
      World(took.tx, w.committed + took.committed, After(w.buffer, kind, line.sql, line.persists),
            w.logged + Written(Script(w.buffer, kind, line.sql, line.modified && line.persists)))
  {}

  // A savepoint statement, or one that runs, on both sides.
  lemma OpStays(nm: Naming, used: iset<string>, w: World, op: Op, w': World)
    requires InStep(nm, used, w) && w.tx.Some? && Coherent(nm, used) && Accepts(nm, w.tx.value.e, op)
    requires op.Run? || op.Drop? || op.at in used
    requires w' == World(Some(Open(EngineStep(nm, Append, w.tx.value.e, op), false)), w.committed + [],
                         Some(BufferStep(nm, w.buffer.value, op)), w.logged + [])
    ensures InStep(nm, used, w')
  {
    NothingMore(w.logged);
    NothingMore(w.committed);
    OpInTouch(nm, used, w.tx.value.e, w.buffer.value, op);
  }

  lemma SavepointTaken(lex: Lexicon, line: Line, m: Meaning, b: Buffer, op: Op)
    requires Read(lex, line.sql) == Some(m) && SameKind(m, Kind(line.sql), line.persists)
    requires (m.Saves? || m.Returns? || m.Releases?) && op == SavepointOp(m, line.sql)
    ensures After(Some(b), Kind(line.sql), line.sql, line.persists) == Some(BufferStep(TextNaming(lex), b, op))
    ensures Script(Some(b), Kind(line.sql), line.sql, line.modified && line.persists) == None
  {}

  lemma SavepointStays(lex: Lexicon, used: iset<string>, w: World, line: Line, m: Meaning)
    requires var nm := TextNaming(lex); InStep(nm, used, w) && Coherent(nm, used) && Agrees(lex, used, line)
    requires Read(lex, line.sql) == Some(m) && (m.Saves? || m.Returns? || m.Releases?)
    requires w.tx.Some?
    requires EngineTakes(TextNaming(lex), w.tx, Some(m), line) == TakesOp(TextNaming(lex), w.tx.value, SavepointOp(m, line.sql))
    ensures InStep(TextNaming(lex), used, Step(lex, w, line))
  {
    var nm, op := TextNaming(lex), SavepointOp(m, line.sql);
    if Accepts(nm, w.tx.value.e, op) {
      SavepointTaken(lex, line, m, w.buffer.value, op);
      Accepted(lex, w, line, TakesOp(nm, w.tx.value, op), Kind(line.sql));
      OpStays(nm, used, w, op, Step(lex, w, line));
    }
  }

  lemma RunStays(lex: Lexicon, used: iset<string>, w: World, line: Line)
    requires var nm := TextNaming(lex); InStep(nm, used, w) && Coherent(nm, used) && Agrees(lex, used, line)
    requires Read(lex, line.sql) == Some(Runs) && line.fate == Succeeds && w.tx.Some? && !w.tx.value.aborted
    ensures InStep(TextNaming(lex), used, Step(lex, w, line))
  {
    var nm, op := TextNaming(lex), Run(line.sql);
    Accepted(lex, w, line, EngineTakes(nm, w.tx, Some(Runs), line), Kind(line.sql));
    if line.persists {
      OpStays(nm, used, w, op, Step(lex, w, line));
    } else {
      NothingMore(w.logged);
      NothingMore(w.committed);
    }
  }

  lemma BeginStays(lex: Lexicon, used: iset<string>, w: World, line: Line)
    requires InStep(TextNaming(lex), used, w) && Kind(line.sql) == Some(Begin)
    requires Read(lex, line.sql) == Some(Opens) && line.fate == Succeeds && w.tx.Some? && !w.tx.value.aborted
    ensures InStep(TextNaming(lex), used, Step(lex, w, line)) <==> w.tx.value.e == Engine([], [])
  {
    Accepted(lex, w, line, Took(w.tx, true, []), Some(Begin));
    NothingMore(w.logged);
    NothingMore(w.committed);
    FreshInTouch(TextNaming(lex), used, w.tx.value.e);
  }

  lemma CommitStays(lex: Lexicon, used: iset<string>, w: World, line: Line)
    requires InStep(TextNaming(lex), used, w) && Kind(line.sql) == Some(Commit)
    requires Read(lex, line.sql) == Some(Commits) && line.fate == Succeeds && w.tx.Some?
    ensures InStep(TextNaming(lex), used, Step(lex, w, line)) <==> !w.tx.value.aborted || w.tx.value.e.live == []
  {
    var o := w.tx.value;
    var script := Script(w.buffer, Some(Commit), line.sql, line.modified && line.persists);
    if o.aborted {
      Accepted(lex, w, line, Took(None, true, []), Some(Commit));
      NothingMore(w.committed);
      ExtraRecord(w.logged, script);
    } else {
      Accepted(lex, w, line, Took(None, true, [o.e.live]), Some(Commit));
      ScriptsPush(w.committed, o.e.live);
    }
  }

  /** A statement inside an open transaction, ... */
  lemma InsideStays(lex: Lexicon, used: iset<string>, w: World, line: Line, m: Meaning)
    requires var nm := TextNaming(lex); InStep(nm, used, w) && Coherent(nm, used) && Agrees(lex, used, line)
    requires Read(lex, line.sql) == Some(m) && line.fate == Succeeds && w.tx.Some? && !w.tx.value.aborted
    ensures InStep(TextNaming(lex), used, Step(lex, w, line)) <==> Clean(lex, w, line)
  {
    match m
    case Opens => BeginStays(lex, used, w, line);
    case Commits => CommitStays(lex, used, w, line);
    case Aborts => NothingMore(w.logged); NothingMore(w.committed);
    case Runs => RunStays(lex, used, w, line);
    case _ => SavepointStays(lex, used, w, line, m);
  }

  /** ... inside an aborted one, ... */
  lemma AbortedStays(lex: Lexicon, used: iset<string>, w: World, line: Line, m: Meaning)
    requires var nm := TextNaming(lex); InStep(nm, used, w) && Coherent(nm, used) && Agrees(lex, used, line)
    requires Read(lex, line.sql) == Some(m) && line.fate == Succeeds && w.tx.Some? && w.tx.value.aborted
    ensures InStep(TextNaming(lex), used, Step(lex, w, line)) <==> Clean(lex, w, line)
  {
    match m
    case Commits => CommitStays(lex, used, w, line);
    case Aborts => NothingMore(w.logged); NothingMore(w.committed);
    case Returns(_) => SavepointStays(lex, used, w, line, m);
    case _ =>
  }

  lemma OpensOutside(lex: Lexicon, used: iset<string>, w: World, line: Line)
    requires InStep(TextNaming(lex), used, w) && Agrees(lex, used, line)
    requires Read(lex, line.sql) == Some(Opens) && line.fate == Succeeds && w.tx == None
    ensures InStep(TextNaming(lex), used, Step(lex, w, line))
  {
    NothingMore(w.logged);
    NothingMore(w.committed);
    FreshInTouch(TextNaming(lex), used, Engine([], []));
  }

  // A statement by itself is logged by itself, if it changed something and is no read.
  lemma RanAlone(nm: Naming, w: World, line: Line, kind: Option<Control>)
    requires w.tx == None && w.buffer == None && line.fate == Succeeds && SameKind(Runs, kind, line.persists)
    ensures var sql := line.sql;
      StepAs(nm, w, line, Some(Runs), kind)
      == if line.modified && line.persists then World(None, w.committed + [[sql]], None, w.logged + [sql]) else w
  {
    NothingMore(w.logged);
    NothingMore(w.committed);
  }

  lemma LoggedAlone(w: World, sql: string)
    requires Exact(w)
    ensures Exact(World(None, w.committed + [[sql]], None, w.logged + [sql]))
  {
    ScriptsPush(w.committed, [sql]);
    assert Join([sql]) == sql;
  }

  lemma RunsOutside(lex: Lexicon, used: iset<string>, w: World, line: Line)
    requires InStep(TextNaming(lex), used, w) && Agrees(lex, used, line)
    requires Read(lex, line.sql) == Some(Runs) && line.fate == Succeeds && w.tx == None
    ensures InStep(TextNaming(lex), used, Step(lex, w, line))
  {
    RanAlone(TextNaming(lex), w, line, Kind(line.sql));
    LoggedAlone(w, line.sql);
  }

  lemma EndsOutside(lex: Lexicon, used: iset<string>, w: World, line: Line, m: Meaning)
    requires InStep(TextNaming(lex), used, w) && Agrees(lex, used, line)
    requires Read(lex, line.sql) == Some(m) && line.fate == Succeeds && w.tx == None && m != Opens && m != Runs
    ensures Step(lex, w, line) == w
  {
    NothingMore(w.logged);
    NothingMore(w.committed);
  }

  /** ... and outside. */
  lemma OutsideStays(lex: Lexicon, used: iset<string>, w: World, line: Line, m: Meaning)
    requires InStep(TextNaming(lex), used, w) && Agrees(lex, used, line)
    requires Read(lex, line.sql) == Some(m) && line.fate == Succeeds && w.tx == None
    ensures InStep(TextNaming(lex), used, Step(lex, w, line))
  {
    match m
    case Opens => OpensOutside(lex, used, w, line);
    case Runs => RunsOutside(lex, used, w, line);
    case _ => EndsOutside(lex, used, w, line, m);
  }

  lemma RefusedStays(lex: Lexicon, used: iset<string>, w: World, line: Line)
    requires InStep(TextNaming(lex), used, w) && (Read(lex, line.sql) == None || line.fate != Succeeds)
    ensures InStep(TextNaming(lex), used, Step(lex, w, line)) <==> Clean(lex, w, line)
  {
  }

  /** One statement keeps engine, buffer and log in step if and only if it is clean. */
  lemma StepStays(lex: Lexicon, used: iset<string>, w: World, line: Line)
    requires var nm := TextNaming(lex); InStep(nm, used, w) && Coherent(nm, used) && Agrees(lex, used, line)
    ensures InStep(TextNaming(lex), used, Step(lex, w, line)) <==> Clean(lex, w, line)
  {
    if Read(lex, line.sql).Some? && line.fate == Succeeds {
      var m := Read(lex, line.sql).value;
      if w.tx == None {
        OutsideStays(lex, used, w, line, m);
      } else if w.tx.value.aborted {
        AbortedStays(lex, used, w, line, m);
      } else {
        InsideStays(lex, used, w, line, m);
      }
    } else {
      RefusedStays(lex, used, w, line);
    }
  }

  /** In step after the first `i` statements; the statement after them is clean. */
  ghost predicate InStepAt(lex: Lexicon, used: iset<string>, lines: seq<Line>, i: nat)
    requires i <= |lines|
  {
    InStep(TextNaming(lex), used, Play(lex, lines[..i]))
  }

  predicate CleanAt(lex: Lexicon, lines: seq<Line>, i: nat)
    requires i < |lines|
  {
    Clean(lex, Play(lex, lines[..i]), lines[i])
  }

  lemma OneMore(lex: Lexicon, used: iset<string>, lines: seq<Line>, i: nat)
    requires i < |lines| && Coherent(TextNaming(lex), used) && Agrees(lex, used, lines[i])
    requires InStepAt(lex, used, lines, i)
    ensures InStepAt(lex, used, lines, i + 1) <==> CleanAt(lex, lines, i)
  {
    var w := Play(lex, lines[..i]);
    assert lines[..i + 1][..i] == lines[..i];
    assert Play(lex, lines[..i + 1]) == Step(lex, w, lines[i]);
    StepStays(lex, used, w, lines[i]);
  }

  lemma StartsInStep(lex: Lexicon, used: iset<string>, lines: seq<Line>)
    ensures InStepAt(lex, used, lines, 0)
  {}

  // A property that one step keeps exactly under a condition holds throughout exactly when that does.
  lemma {:induction false} Chain(holds: seq<bool>, keeps: seq<bool>, n: nat)
    requires |holds| == |keeps| + 1 && n <= |keeps| && holds[0]
    requires forall i | 0 <= i < |keeps| && holds[i] :: holds[i + 1] == keeps[i]
    ensures (forall i | 0 <= i <= n :: holds[i]) <==> (forall i | 0 <= i < n :: keeps[i])
    decreases n
  {
    if n > 0 {
      Chain(holds, keeps, n - 1);
      assert holds[n - 1] ==> holds[n - 1 + 1] == keeps[n - 1];
      assert (forall i | 0 <= i <= n :: holds[i]) <==> (forall i | 0 <= i <= n - 1 :: holds[i]) && holds[n];
      assert (forall i | 0 <= i < n :: keeps[i]) <==> (forall i | 0 <= i < n - 1 :: keeps[i]) && keeps[n - 1];
    }
  }

  /**
   * Over a session of statements that both sides classify alike and whose savepoint texts are told
   * apart alike: log and buffer together, marks included, are in step with the engine at every point
   * if and only if every statement is clean.
   */
  lemma SessionInStep(lex: Lexicon, used: iset<string>, lines: seq<Line>)
    requires Coherent(TextNaming(lex), used) && forall i | 0 <= i < |lines| :: Agrees(lex, used, lines[i])
    ensures (forall i | 0 <= i <= |lines| :: InStepAt(lex, used, lines, i))
       <==> (forall i | 0 <= i < |lines| :: CleanAt(lex, lines, i))
  {
    var n := |lines|;
    ghost var holds := seq(n + 1, i requires 0 <= i <= n => InStepAt(lex, used, lines, i));
    var keeps := seq(n, i requires 0 <= i < n => CleanAt(lex, lines, i));
    StartsInStep(lex, used, lines);
    forall i | 0 <= i < n && holds[i] ensures holds[i + 1] == keeps[i] {
      OneMore(lex, used, lines, i);
    }
    Chain(holds, keeps, n);
    assert forall i | 0 <= i <= n :: holds[i] == InStepAt(lex, used, lines, i);
    assert forall i | 0 <= i < n :: keeps[i] == CleanAt(lex, lines, i);
  }
}
