/**
 * Deduplicating concurrent work by key: an elected leader per key publishes to
 * its followers and clears the entry, so that a later lookup starts afresh.
 */
module RaceGuard {
  import opened Wrappers

  type Key = string
  type Value = int
  type Gen = nat   // one registration of a key, with its own channel

  // ---------------------------------------------------------------- the guard

  datatype Lookup = First(gen: Gen) | Existing(gen: Gen)

  datatype Table = Table(entries: map<Key, Gen>, next: Gen, firsts: nat, existings: nat)

  function Looked(t: Table, key: Key): (Table, Lookup) {
    if key in t.entries then (t.(existings := t.existings + 1), Existing(t.entries[key]))
    else (t.(entries := t.entries[key := t.next], next := t.next + 1, firsts := t.firsts + 1), First(t.next))
  }

  class Guard {
    var entries: map<Key, Gen>
    var next: Gen
    var firsts: nat
    var existings: nat

    function Abs(): Table
      reads this
    {
      Table(entries, next, firsts, existings)
    }

    constructor ()
      ensures Abs() == Table(map[], 0, 0, 0)
    {
      entries, next, firsts, existings := map[], 0, 0, 0;
    }

    method LookUp(key: Key) returns (r: Lookup)
      modifies this
      ensures (Abs(), r) == Looked(old(Abs()), key)
    {
      if key in entries {
        existings := existings + 1;
        return Existing(entries[key]);
      }
      r := First(next);
      entries := entries[key := next];
      next := next + 1;
      firsts := firsts + 1;
    }

    method Remove(key: Key)
      modifies this
      ensures Abs() == old(Abs()).(entries := old(entries) - {key})
    {
      entries := entries - {key};
    }
  }

  // ---------------------------------------------------------------- runs

  /** A leader works, has sent its value, or has also removed its entry. */
  datatype Phase = Working | Sent | Gone

  /** `chosen` is the value the leader computed; `cell` what its channel holds. */
  datatype Race = Race(key: Key, phase: Phase, chosen: Option<Value>, cell: Option<Value>)

  datatype Delivery = Delivery(gen: Gen, value: Value)

  datatype State = State(table: Table, races: seq<Race>, lookups: nat, delivered: seq<Delivery>)

  function Init(): State {
    State(Table(map[], 0, 0, 0), [], 0, [])
  }

  datatype Step =
    | LookUp(key: Key)
    | Send(gen: Gen, value: Value, heard: bool)   // `heard`: the channel had a receiver and took the value
    | Remove(gen: Gen)
    | Receive(gen: Gen)

  /** Each leader publishes once: it sends, then removes. */
  predicate Enabled(s: State, step: Step) {
    match step
    case LookUp(_) => true
    case Send(g, _, _) => g < |s.races| && s.races[g].phase == Working
    case Remove(g) => g < |s.races| && s.races[g].phase == Sent
    case Receive(g) => g < |s.races| && s.races[g].cell.Some?
  }

  function Apply(s: State, step: Step): State
    requires Enabled(s, step)
  {
    match step
    case LookUp(key) =>
      var (table, r) := Looked(s.table, key);
      s.(table := table, lookups := s.lookups + 1,
         races := if r.First? then s.races + [Race(key, Working, None, None)] else s.races)
    case Send(g, v, heard) =>
      s.(races := s.races[g := s.races[g].(phase := Sent, chosen := Some(v), cell := if heard then Some(v) else None)])
    case Remove(g) =>
      s.(races := s.races[g := s.races[g].(phase := Gone)],
         table := s.table.(entries := s.table.entries - {s.races[g].key}))
    case Receive(g) => s.(delivered := s.delivered + [Delivery(g, s.races[g].cell.value)])
  }

  /** The entries are exactly the races that are not over, one per key. */
  predicate EntriesExact(s: State) {
    && s.table.next == |s.races|
    && (forall g :: 0 <= g < |s.races| && s.races[g].phase != Gone ==>
          s.races[g].key in s.table.entries && s.table.entries[s.races[g].key] == g)
    && (forall k :: k in s.table.entries ==>
          s.table.entries[k] < |s.races| && s.races[s.table.entries[k]].key == k
          && s.races[s.table.entries[k]].phase != Gone)
  }

  predicate Counted(s: State) {
    s.table.firsts == |s.races| && s.table.firsts + s.table.existings == s.lookups
  }

  /** A channel holds its own leader's value, and so does whatever was delivered from it. */
  predicate OwnValues(s: State) {
    && (forall g :: 0 <= g < |s.races| && s.races[g].cell.Some? ==> s.races[g].cell == s.races[g].chosen)
    && (forall g :: 0 <= g < |s.races| && s.races[g].phase == Working ==> s.races[g].chosen.None?)
    && (forall i :: 0 <= i < |s.delivered| ==>
          s.delivered[i].gen < |s.races| && s.races[s.delivered[i].gen].chosen == Some(s.delivered[i].value))
  }

  predicate Inv(s: State) {
    EntriesExact(s) && Counted(s) && OwnValues(s)
  }

  lemma KeepsEntries(s: State, step: Step)
    requires EntriesExact(s) && Enabled(s, step)
    ensures EntriesExact(Apply(s, step))
  {}

  lemma KeepsValues(s: State, step: Step)
    requires OwnValues(s) && Enabled(s, step)
    ensures OwnValues(Apply(s, step))
  {
    if step.Send? {
      var s' := Apply(s, step);
      forall i | 0 <= i < |s'.delivered|
        ensures s'.races[s'.delivered[i].gen].chosen == Some(s'.delivered[i].value)
      {
        assert s.races[s.delivered[i].gen].chosen.Some?;
      }
    }
  }

  lemma KeepsInv(s: State, step: Step)
    requires Inv(s) && Enabled(s, step)
    ensures Inv(Apply(s, step))
  {
    KeepsEntries(s, step);
    KeepsValues(s, step);
  }

  predicate Run(states: seq<State>, steps: seq<Step>) {
    && |states| == |steps| + 1 && states[0] == Init()
    && (forall i :: 0 <= i < |steps| ==> Enabled(states[i], steps[i]) && states[i + 1] == Apply(states[i], steps[i]))
  }

  lemma {:induction false} RunInv(states: seq<State>, steps: seq<Step>, i: nat)
    requires Run(states, steps) && i < |states|
    ensures Inv(states[i])
  {
    if i > 0 {
      RunInv(states, steps, i - 1);
      KeepsInv(states[i - 1], steps[i - 1]);
    }
  }

  /** A key never has two leaders that are not done, and every lookup is counted once. */
  lemma OneLeaderPerKey(states: seq<State>, steps: seq<Step>, i: nat, a: Gen, b: Gen)
    requires Run(states, steps) && i < |states| && a < |states[i].races| && b < |states[i].races|
    requires states[i].races[a].key == states[i].races[b].key
    requires states[i].races[a].phase != Gone && states[i].races[b].phase != Gone
    ensures a == b
    ensures states[i].table.firsts + states[i].table.existings == states[i].lookups
  {
    RunInv(states, steps, i);
  }

  /** Removing an entry never deletes another generation's. */
  lemma RemovalIsOwn(states: seq<State>, steps: seq<Step>, i: nat, key: Key)
    requires Run(states, steps) && i < |steps| && steps[i].Remove?
    requires key in states[i].table.entries && states[i].table.entries[key] != steps[i].gen
    ensures key in states[i + 1].table.entries && states[i + 1].table.entries[key] == states[i].table.entries[key]
  {
    RunInv(states, steps, i);
  }

  lemma {:induction false} ChoiceStands(states: seq<State>, steps: seq<Step>, i: nat, j: nat, g: Gen)
    requires Run(states, steps) && i <= j < |states| && g < |states[i].races| && states[i].races[g].chosen.Some?
    ensures g < |states[j].races| && states[j].races[g].chosen == states[i].races[g].chosen
    decreases j - i
  {
    if i < j {
      ChoiceStands(states, steps, i, j - 1, g);
      RunInv(states, steps, j - 1);
    }
  }

  /** Whatever a subscriber returns is the value the leader of its own generation sent. */
  lemma SubscribersAgree(states: seq<State>, steps: seq<Step>, i: nat, j: nat, k: nat)
    requires Run(states, steps) && i < |steps| && j < |states|
    requires steps[i].Send? && k < |states[j].delivered| && states[j].delivered[k].gen == steps[i].gen
    ensures states[j].delivered[k].value == steps[i].value
  {
    RunInv(states, steps, i);
    RunInv(states, steps, i + 1);
    RunInv(states, steps, j);
    var g := steps[i].gen;
    if j >= i + 1 {
      ChoiceStands(states, steps, i + 1, j, g);
    } else {
      ChoiceStands(states, steps, j, i, g);
    }
  }

  // ---------------------------------------------------------------- the contract is needed

  // What `remove` does when leader `g` calls it again.
  function RemovedAgain(s: State, g: Gen): State
    requires g < |s.races|
  {
    s.(table := s.table.(entries := s.table.entries - {s.races[g].key}))
  }

  /**
   * A leader that is done and removes again does no harm exactly when no later
   * generation of its key is registered. The documentation calls the second
   * call harmless without that condition.
   */
  lemma SecondRemovalHarmlessIff(s: State, g: Gen)
    requires Inv(s) && g < |s.races| && s.races[g].phase == Gone
    ensures Inv(RemovedAgain(s, g)) <==> s.races[g].key !in s.table.entries
    ensures Inv(RemovedAgain(s, g)) <==> RemovedAgain(s, g) == s
  {
    var key := s.races[g].key;
    if key in s.table.entries {
      var h := s.table.entries[key];
      assert s.races[h].phase != Gone && s.races[h].key == key;
      assert !EntriesExact(RemovedAgain(s, g));
    } else {
      assert s.table.entries - {key} == s.table.entries;
    }
  }

  /** Where it does harm, the next lookup elects a second leader beside the one at work. */
  lemma SecondRemovalBreaks(s: State, g: Gen)
    requires Inv(s) && g < |s.races| && s.races[g].phase == Gone && s.races[g].key in s.table.entries
    ensures var key := s.races[g].key;
            var h := s.table.entries[key];
            var two := Apply(RemovedAgain(s, g), LookUp(key));
            && g != h && |two.races| == |s.races| + 1
            && two.races[h].key == two.races[|s.races|].key == key
            && two.races[h].phase != Gone && two.races[|s.races|].phase == Working
  {
    assert s.races[s.table.entries[s.races[g].key]].phase != Gone;
  }

  /** Such a state is reached: one race runs to its end, and the key is looked up again. */
  lemma SecondRemovalReachable(key: Key, value: Value) returns (states: seq<State>, steps: seq<Step>)
    ensures Run(states, steps)
    ensures var s := states[|steps|];
            && |s.races| == 2 && s.races[0].key == s.races[1].key == key
            && s.races[0].phase == Gone && s.races[1].phase == Working && key in s.table.entries
  {
    var a := Init();
    var b := Apply(a, LookUp(key));
    var c := Apply(b, Send(0, value, true));
    var d := Apply(c, Remove(0));
    assert key !in d.table.entries;
    var e := Apply(d, LookUp(key));
    states := [a, b, c, d, e];
    steps := [LookUp(key), Send(0, value, true), Remove(0), LookUp(key)];
  }
}
