/**
 * What the buffer is for: the script a commit logs rebuilds the state the
 * engine kept, whatever was rolled back on the way.
 */
module TxReplay {
  import opened SqlText
  import opened TxBuffer
  import opened TxRefinement
  import SplitterRoundTrip
  import opened Wrappers

  function Fold<V>(apply: (V, string) -> V, base: V, stmts: seq<string>): V {
    if stmts == [] then base else apply(Fold(apply, base, stmts[..|stmts| - 1]), stmts[|stmts| - 1])
  }

  lemma FoldPush<V>(apply: (V, string) -> V, base: V, stmts: seq<string>, stmt: string)
    ensures Fold(apply, base, stmts + [stmt]) == apply(Fold(apply, base, stmts), stmt)
  {
    assert (stmts + [stmt])[..|stmts|] == stmts;
  }

  /** The engine over its own states, with a state copied at each savepoint. */
  function EngineRun<V>(nm: Naming, apply: (V, string) -> V, base: V, ops: seq<Op>): Engine<V> {
    if ops == [] then Engine(base, [])
    else
      var e := EngineRun(nm, apply, base, ops[..|ops| - 1]);
      var op := ops[|ops| - 1];
      if Accepts(nm, e, op) then EngineStep(nm, apply, e, op) else e
  }

  function States<V>(apply: (V, string) -> V, base: V, saves: seq<Save<Listing>>): (r: seq<Save<V>>)
    ensures |r| == |saves|
    ensures forall i :: 0 <= i < |r| ==> r[i] == Save(saves[i].at, Fold(apply, base, saves[i].copy))
  {
    if saves == [] then []
    else [Save(saves[0].at, Fold(apply, base, saves[0].copy))] + States(apply, base, saves[1..])
  }

  lemma {:induction false} OthersStates<V>(nm: Naming, apply: (V, string) -> V, base: V, saves: seq<Save<Listing>>, at: string)
    ensures Others(nm, States(apply, base, saves), at) == States(apply, base, Others(nm, saves, at))
  {
    if saves != [] {
      OthersStates(nm, apply, base, saves[1..], at);
      assert States(apply, base, saves)[1..] == States(apply, base, saves[1..]);
    }
  }

  lemma {:induction false} LastStates<V>(nm: Naming, apply: (V, string) -> V, base: V, saves: seq<Save<Listing>>, at: string)
    ensures LastOf(nm, States(apply, base, saves), at) == LastOf(nm, saves, at)
    decreases |saves|
  {
    if saves != [] {
      var front := saves[..|saves| - 1];
      LastStates(nm, apply, base, front, at);
      StatesCut(apply, base, saves, |saves| - 1);
    }
  }

  lemma StatesPush<V>(apply: (V, string) -> V, base: V, saves: seq<Save<Listing>>, x: Save<Listing>)
    ensures States(apply, base, saves + [x]) == States(apply, base, saves) + [Save(x.at, Fold(apply, base, x.copy))]
  {}

  lemma StatesCut<V>(apply: (V, string) -> V, base: V, saves: seq<Save<Listing>>, n: nat)
    requires n <= |saves|
    ensures States(apply, base, saves[..n]) == States(apply, base, saves)[..n]
  {}

  // An engine over states that mirrors an engine over statement lists.
  predicate Mirrors<V(==)>(apply: (V, string) -> V, base: V, x: Engine<V>, e: Engine<Listing>) {
    x.live == Fold(apply, base, e.live) && x.saves == States(apply, base, e.saves)
  }

  lemma SaveMirrors<V>(nm: Naming, apply: (V, string) -> V, base: V, x: Engine<V>, e: Engine<Listing>, at: string)
    requires Mirrors(apply, base, x, e)
    ensures Mirrors(apply, base, EngineStep(nm, apply, x, MakeSave(at)), EngineStep(nm, Append, e, MakeSave(at)))
  {
    OthersStates(nm, apply, base, e.saves, at);
    StatesPush(apply, base, Others(nm, e.saves, at), Save(at, e.live));
  }

  lemma BackMirrors<V>(nm: Naming, apply: (V, string) -> V, base: V, x: Engine<V>, e: Engine<Listing>, at: string)
    requires Mirrors(apply, base, x, e)
    ensures Accepts(nm, x, BackTo(at)) <==> Accepts(nm, e, BackTo(at))
    ensures Accepts(nm, e, BackTo(at)) ==>
              Mirrors(apply, base, EngineStep(nm, apply, x, BackTo(at)), EngineStep(nm, Append, e, BackTo(at)))
  {
    LastStates(nm, apply, base, e.saves, at);
    var p := LastOf(nm, e.saves, at);
    if p < |e.saves| { StatesCut(apply, base, e.saves, p + 1); }
  }

  lemma StepMirrors<V>(nm: Naming, apply: (V, string) -> V, base: V, x: Engine<V>, e: Engine<Listing>, op: Op)
    requires Mirrors(apply, base, x, e)
    ensures Accepts(nm, x, op) <==> Accepts(nm, e, op)
    ensures Accepts(nm, e, op) ==> Mirrors(apply, base, EngineStep(nm, apply, x, op), EngineStep(nm, Append, e, op))
  {
    match op {
      case Run(stmt) => FoldPush(apply, base, e.live, stmt);
      case MakeSave(at) => SaveMirrors(nm, apply, base, x, e, at);
      case BackTo(at) => BackMirrors(nm, apply, base, x, e, at);
      case Drop(at) =>
        LastStates(nm, apply, base, e.saves, at);
        StatesCut(apply, base, e.saves, LastOf(nm, e.saves, at));
    }
  }

  /** The engine's state is its base with the surviving statements applied, at every point of every run. */
  lemma {:induction false} EngineIsFold<V>(nm: Naming, apply: (V, string) -> V, base: V, ops: seq<Op>)
    ensures Mirrors(apply, base, EngineRun(nm, apply, base, ops), Both(nm, ops).e)
    decreases |ops|
  {
    if ops != [] {
      var front, op := ops[..|ops| - 1], ops[|ops| - 1];
      EngineIsFold(nm, apply, base, front);
      StepMirrors(nm, apply, base, EngineRun(nm, apply, base, front), Both(nm, front).e, op);
    }
  }

  /**
   * At COMMIT the log gets the surviving statements joined, or nothing when
   * none survive, and applying them to the state at BEGIN gives the state the
   * engine commits.
   */
  lemma CommitLogsSurvivors<V>(
      nm: Naming, used: iset<string>, apply: (V, string) -> V, base: V, ops: seq<Op>, sql: string, records: bool)
    requires Coherent(nm, used) && Over(ops, used)
    ensures var buffer := Both(nm, ops).b;
            && EngineRun(nm, apply, base, ops).live == Fold(apply, base, buffer.statements)
            && Script(Some(buffer), Some(Commit), sql, records) ==
               (if buffer.statements == [] then None else Some(SplitterRoundTrip.Join(Both(nm, ops).e.live)))
  {
    EngineIsFold(nm, apply, base, ops);
    FollowsIffCoherent(nm, used);
  }
}
