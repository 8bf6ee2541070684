/** The three-state flag that lets many threads share one lazily built CRC table. */
module CrcOnce {
  import opened Bytes
  import opened Crc
  import opened CrcTable

  datatype Phase = Uninit | Init | Ready

  /** A thread outside `ensure_table`, storing entries under the claimed flag, or returned from it. */
  datatype Pc = Outside | Filling(next: nat) | Returned

  datatype Shared = Shared(phase: Phase, table: seq<Reg>, pc: map<nat, Pc>)

  ghost predicate Start(s: Shared) {
    s.phase == Uninit && |s.table| == 256 && forall t :: t in s.pc ==> s.pc[t] == Outside
  }

  datatype Step = Claim(t: nat) | Store(t: nat) | Publish(t: nat) | SeeReady(t: nat) | Spin(t: nat) | Leave(t: nat)

  ghost predicate Next(poly: Reg, s: Shared, step: Step, s': Shared) {
    step.t in s.pc &&
    var pc := s.pc[step.t];
    match step
    case Claim(t) =>
      pc == Outside && s.phase == Uninit && s' == s.(phase := Init, pc := s.pc[t := Filling(0)])
    case Store(t) =>
      pc.Filling? && pc.next < 256 && pc.next < |s.table| &&
      s' == s.(table := s.table[pc.next := Shifts(poly, 8, Word(pc.next))], pc := s.pc[t := Filling(pc.next + 1)])
    case Publish(t) =>
      pc == Filling(256) && s' == s.(phase := Ready, pc := s.pc[t := Returned])
    case SeeReady(t) =>
      pc == Outside && s.phase == Ready && s' == s.(pc := s.pc[t := Returned])
    case Spin(t) =>
      pc == Outside && s.phase == Init && s' == s
    case Leave(t) =>
      pc == Returned && s' == s.(pc := s.pc[t := Outside])
  }

  ghost predicate Inv(poly: Reg, s: Shared) {
    && |s.table| == 256
    && (s.phase == Ready ==> TableFor(poly, s.table))
    && (forall t :: t in s.pc && s.pc[t].Filling? ==>
          s.phase == Init && s.pc[t].next <= 256 &&
          forall i: byte :: i < s.pc[t].next ==> s.table[i] == Shifts(poly, 8, Word(i)))
    && (forall t, u :: t in s.pc && u in s.pc && s.pc[t].Filling? && s.pc[u].Filling? ==> t == u)
    && (forall t :: t in s.pc && s.pc[t] == Returned ==> s.phase == Ready)
  }

  lemma StepKeepsInv(poly: Reg, s: Shared, step: Step, s': Shared)
    requires Inv(poly, s) && Next(poly, s, step, s')
    ensures Inv(poly, s')
    ensures s.phase == Ready ==> s'.phase == Ready && s'.table == s.table
  {
    assert forall t :: t in s'.pc && t != step.t ==> t in s.pc && s'.pc[t] == s.pc[t];
  }

  ghost predicate Run(poly: Reg, states: seq<Shared>, steps: seq<Step>) {
    |states| == |steps| + 1 && Start(states[0]) &&
    forall i :: 0 <= i < |steps| ==> Next(poly, states[i], steps[i], states[i + 1])
  }

  /** In every interleaving, a caller that got past `ensure_table` reads the finished table. */
  lemma {:induction false} ReadersSeeFullTable(poly: Reg, states: seq<Shared>, steps: seq<Step>, t: nat)
    requires Run(poly, states, steps)
    ensures var s := states[|steps|];
      Inv(poly, s) && (t in s.pc && s.pc[t] == Returned ==> TableFor(poly, s.table))
    decreases |steps|
  {
    if |steps| > 0 {
      var n := |steps| - 1;
      ReadersSeeFullTable(poly, states[..n + 1], steps[..n], t);
      StepKeepsInv(poly, states[n], steps[n], states[n + 1]);
    }
  }
}
