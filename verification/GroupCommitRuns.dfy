/** What group commit guarantees over whole runs, and why `flush_now` needs its contract. */
module GroupCommitRuns {
  import opened Bytes
  import opened GroupCommit
  import opened GroupCommitSafety
  import opened Wrappers

  ghost predicate Start(s: State, base: seq<byte>) {
    && s.core == Core([], 0, 0, false, false) && s.log == [] && s.chunks == [base] && s.synced == |base|
    && s.stateHeld == None && s.fileHeld == None && s.acked == 0
    && forall t :: t in s.pc ==> s.pc[t] == Idle
  }

  /** Any interleaving of enabled steps. */
  ghost predicate FreeRun(states: seq<State>, steps: seq<Step>, base: seq<byte>) {
    && |states| == |steps| + 1 && Start(states[0], base)
    && forall i :: 0 <= i < |steps| ==> Enabled(states[i], steps[i]) && states[i + 1] == Apply(states[i], steps[i])
  }

  /** Any interleaving whose callers keep the contract of `flush_now`. */
  ghost predicate Run(states: seq<State>, steps: seq<Step>, base: seq<byte>) {
    FreeRun(states, steps, base) && forall i :: 0 <= i < |steps| ==> Exclusive(states[i], steps[i])
  }

  ghost predicate Inv(s: State, base: seq<byte>) {
    Control(s) && Accounted(s, base)
  }

  lemma StartInv(s: State, base: seq<byte>)
    requires Start(s, base)
    ensures Inv(s, base)
  {
    FlatSnoc([], base);
    assert [] + [base] == s.chunks;
    assert base + [] == base;
    assert s.log[..0] == [];
  }

  lemma {:induction false} RunInv(states: seq<State>, steps: seq<Step>, base: seq<byte>, i: nat)
    requires Run(states, steps, base) && i <= |steps|
    ensures Inv(states[i], base)
    decreases i
  {
    if i == 0 {
      StartInv(states[0], base);
    } else {
      RunInv(states, steps, base, i - 1);
      KeepsControl(states[i - 1], steps[i - 1]);
      KeepsAccounted(states[i - 1], steps[i - 1], base);
    }
  }

  // ---------------------------------------------------------------- conservation

  /** The bytes of a batch in flight that are not in the file yet. */
  function Unwritten(pc: Pc): seq<byte>
    requires pc.Io?
  {
    match pc.stage
    case Queued => pc.batch
    case Writing(done) => if done <= |pc.batch| then pc.batch[done..] else []
    case Finished(_) => []
  }

  lemma FlightConserved(s: State, base: seq<byte>, pc: Pc)
    requires InFlight(s, base, pc) && pc.stage != Finished(false)
    ensures Written(s) + Unwritten(pc) + s.core.buf == base + Flat(s.log)
  {
    assert Written(s) + [] == Written(s);
  }

  /** Written bytes, the batch in flight and the buffer are every record ever enqueued, in order. */
  lemma Conservation(states: seq<State>, steps: seq<Step>, base: seq<byte>, i: nat)
    requires Run(states, steps, base) && i <= |steps|
    ensures var s := states[i];
      && (!s.core.failed && !AnyIo(s) ==> Written(s) + s.core.buf == base + Flat(s.log))
      && (forall t :: t in s.pc && s.pc[t].Io? && s.pc[t].stage != Finished(false) ==>
            Written(s) + Unwritten(s.pc[t]) + s.core.buf == base + Flat(s.log))
  {
    RunInv(states, steps, base, i);
    var s := states[i];
    forall t | t in s.pc && s.pc[t].Io? && s.pc[t].stage != Finished(false)
      ensures Written(s) + Unwritten(s.pc[t]) + s.core.buf == base + Flat(s.log)
    {
      FlightConserved(s, base, s.pc[t]);
    }
  }

  // ---------------------------------------------------------------- durability of answers

  /**
   * Whatever a crash leaves, between the synced bytes and all written ones, is a prefix of the log
   * that holds every record whose ticket was answered Ok.
   */
  lemma AckedSurvivesCrash(states: seq<State>, steps: seq<Step>, base: seq<byte>, i: nat, kept: nat)
    requires Run(states, steps, base) && i <= |steps|
    requires states[i].synced <= kept <= |Written(states[i])|
    ensures states[i].acked <= |states[i].log|
    ensures Upto(states[i], base, states[i].acked) <= Written(states[i])[..kept] <= base + Flat(states[i].log)
  {
    RunInv(states, steps, base, i);
  }

  /** `wait_flushed` answers Ok only for a record that is synced. */
  lemma OkMeansSynced(states: seq<State>, steps: seq<Step>, base: seq<byte>, i: nat)
    requires Run(states, steps, base) && i < |steps| && steps[i].CheckDurable?
    ensures DurableTo(states[i], base, states[i].pc[steps[i].t].ticket)
  {
    RunInv(states, steps, base, i);
    DurableDown(states[i], base, states[i].pc[steps[i].t].ticket, states[i].core.flushed);
  }

  /** `flush_now` answers Ok only when everything enqueued before its take is synced. */
  lemma FlushOkMeansSynced(states: seq<State>, steps: seq<Step>, base: seq<byte>, i: nat)
    requires Run(states, steps, base) && i < |steps|
    requires steps[i].FlushEmpty? || (steps[i].Publish? && states[i].pc[steps[i].t].stage == Finished(true))
    ensures DurableTo(states[i], base, if steps[i].FlushEmpty? then |states[i].log| else states[i].pc[steps[i].t].flushTo)
  {
    RunInv(states, steps, base, i);
    var s := states[i];
    if steps[i].FlushEmpty? {
      assert !AnyIo(s);
      assert Written(s) + [] == Written(s);
      assert s.log[..|s.log|] == s.log;
    } else {
      assert InFlight(s, base, s.pc[steps[i].t]);
    }
  }

  lemma PoisonStep(s: State, step: Step, base: seq<byte>)
    requires Accounted(s, base) && Enabled(s, step) && s.core.failed
    ensures Apply(s, step).core.failed && Apply(s, step).acked == s.acked
    ensures !step.CheckDurable? && !step.FlushEmpty? && !step.Publish?
  {
  }

  /** A failed flush is final: neither `wait_flushed` nor `flush_now` answers Ok again. */
  lemma {:induction false} PoisonIsSticky(states: seq<State>, steps: seq<Step>, base: seq<byte>, i: nat, j: nat)
    requires Run(states, steps, base) && i <= j <= |steps| && states[i].core.failed
    ensures states[j].core.failed && states[j].acked == states[i].acked
    ensures j < |steps| ==> !steps[j].CheckDurable? && !steps[j].FlushEmpty? && !steps[j].Publish?
    decreases j - i
  {
    if i < j {
      PoisonIsSticky(states, steps, base, i, j - 1);
      RunInv(states, steps, base, j - 1);
      PoisonStep(states[j - 1], steps[j - 1], base);
    }
    if j < |steps| {
      RunInv(states, steps, base, j);
      PoisonStep(states[j], steps[j], base);
    }
  }

  // ---------------------------------------------------------------- leaders

  lemma {:induction false} FlushedGrows(states: seq<State>, steps: seq<Step>, base: seq<byte>, i: nat, j: nat)
    requires Run(states, steps, base) && i <= j <= |steps|
    ensures states[i].core.flushed <= states[j].core.flushed
    decreases j - i
  {
    if i < j {
      FlushedGrows(states, steps, base, i, j - 1);
      RunInv(states, steps, base, j - 1);
      FlushedStep(states[j - 1], steps[j - 1]);
    }
  }

  lemma FlushedStep(s: State, step: Step)
    requires Control(s) && Enabled(s, step)
    ensures s.core.flushed <= Apply(s, step).core.flushed
  {
    assert TicketOk(s.pc[step.t], s.core.flushed, |s.log|);
  }

  /** A leader whose flush succeeds covers its own ticket, so that ticket is never led again. */
  lemma LeaderCoversItself(states: seq<State>, steps: seq<Step>, base: seq<byte>, i: nat, j: nat)
    requires Run(states, steps, base) && i < j < |steps|
    requires steps[i].Publish? && states[i].pc[steps[i].t].role.Leader?
    requires states[i].pc[steps[i].t].stage == Finished(true)
    requires steps[j].Elect?
    ensures states[j].pc[steps[j].t].ticket != states[i].pc[steps[i].t].role.ticket
  {
    RunInv(states, steps, base, i);
    assert TicketOk(states[i].pc[steps[i].t], states[i].core.flushed, |states[i].log|);
    FlushedGrows(states, steps, base, i + 1, j);
  }

  // ---------------------------------------------------------------- progress

  /** Steps a thread takes on its own, as opposed to new work or a spurious wakeup. */
  predicate Own(step: Step) {
    !step.Enqueue? && !step.EnqueueMarker? && !step.Spurious? && !step.Panic? && !step.FlushPoisoned?
    && !step.FlushEmpty? && !step.FlushTake? && !step.RotateLock? && !step.Leave? && !step.Fail?
  }

  predicate Blocked(pc: Pc) {
    pc.Waiting? || pc.Parked? || InWindow(pc) || pc == Notifying || pc == Swapping
  }

  ghost predicate CanMove(s: State, step: Step) {
    Own(step) && Enabled(s, step) && Exclusive(s, step)
  }

  /** The thread holding `file` can always go on: it never needs `state`. */
  lemma FileHolderMoves(s: State) returns (step: Step)
    requires Control(s) && s.fileHeld.Some?
    ensures CanMove(s, step)
  {
    var t := s.fileHeld.value;
    var pc := s.pc[t];
    assert TicketOk(pc, s.core.flushed, |s.log|);
    step := if pc.stage.done == |pc.batch| then Sync(t) else Write(t, |pc.batch| - pc.stage.done);
  }

  lemma WindowMoves(s: State, t: Tid) returns (step: Step)
    requires Control(s) && s.stateHeld == None && t in s.pc && InWindow(s.pc[t])
    ensures CanMove(s, step)
  {
    var pc := s.pc[t];
    if s.fileHeld.Some? {
      step := FileHolderMoves(s);
    } else if pc.Leading? {
      step := Take(t);
    } else if pc.stage == Queued {
      step := LockFile(t);
    } else {
      assert !HoldsFile(pc);
      step := Publish(t);
    }
  }

  /**
   * No deadlock and no lost wakeup: while any thread is blocked in group commit, some thread can
   * take a step of its own.
   */
  lemma SomeoneMoves(s: State, base: seq<byte>, t: Tid) returns (step: Step)
    requires Inv(s, base) && t in s.pc && Blocked(s.pc[t])
    ensures CanMove(s, step)
  {
    var pc := s.pc[t];
    if s.stateHeld.Some? {
      if s.fileHeld.Some? {
        step := FileHolderMoves(s);
      } else {
        step := RotateSwap(s.stateHeld.value);
      }
    } else if w :| w in s.pc && InWindow(s.pc[w]) {
      step := WindowMoves(s, w);
    } else if u :| u in s.pc && s.pc[u] == Notifying {
      step := NotifyAfterPanic(u);
    } else {
      assert !s.core.leaderActive;
      assert pc.Waiting?;
      match Judge(s.core, pc.ticket)
      case Poisoned => step := CheckPoisoned(t);
      case Durable => step := CheckDurable(t);
      case Lead => step := Elect(t);
    }
  }

  lemma RunNeverStuck(states: seq<State>, steps: seq<Step>, base: seq<byte>, i: nat, t: Tid)
    requires Run(states, steps, base) && i <= |steps| && t in states[i].pc && Blocked(states[i].pc[t])
    ensures exists step :: CanMove(states[i], step)
  {
    RunInv(states, steps, base, i);
    var step := SomeoneMoves(states[i], base, t);
  }

  // ---------------------------------------------------------------- why flush_now needs its contract

  /** The synced bytes do not hold every record the flushed counter promises. */
  ghost predicate FalsePromise(s: State, base: seq<byte>) {
    !s.core.failed && s.core.flushed <= |s.log| && s.synced < |Upto(s, base, s.core.flushed)|
  }

  /** The bytes of a batch in flight are not all in the file. */
  ghost predicate Behind(s: State, base: seq<byte>, pc: Pc) {
    pc.Io? && pc.flushTo <= |s.log| &&
    match pc.stage
    case Queued => pc.batch != []
    case Writing(done) => done < |pc.batch|
    case Finished(ok) => !ok && |Written(s)| < |Upto(s, base, pc.flushTo)|
  }

  /** A batch in flight is not synced, or its failure not yet published. */
  predicate Unsynced(pc: Pc) {
    pc.Io? && pc.batch != [] && pc.stage != Finished(true)
  }

  lemma BehindLength(s: State, base: seq<byte>, t: Tid)
    requires Accounted(s, base) && t in s.pc && s.pc[t].Io?
    ensures !s.core.failed
    ensures Behind(s, base, s.pc[t]) <==> |Written(s)| + |s.core.buf| < |base + Flat(s.log)|
  {
    assert InWindow(s.pc[t]) && InFlight(s, base, s.pc[t]);
  }

  /**
   * `flush_now` over a non-empty buffer, run without interruption against its contract, breaks the
   * promise exactly when another thread's batch is not all in the file. A leader that has not taken
   * its batch yet does no harm.
   */
  lemma OverlapBreaks(s: State, base: seq<byte>, f: Tid)
    requires Inv(s, base) && s.stateHeld == None && s.fileHeld == None && !s.core.failed
    requires f in s.pc && s.pc[f] == Idle && s.core.buf != []
    ensures FalsePromise(FlushNowAlone(s, f), base) <==> exists t :: t in s.pc && Behind(s, base, s.pc[t])
  {
    FlushNowAloneWrites(s, f);
    OverlapExact(s, FlushNowAlone(s, f), base);
  }

  lemma OverlapExact(s: State, s': State, base: seq<byte>)
    requires Control(s) && Accounted(s, base) && !s.core.failed
    requires s'.log == s.log && s'.core.flushed == |s.log| && !s'.core.failed
    requires s'.synced == |Written(s)| + |s.core.buf|
    ensures FalsePromise(s', base) <==> exists t :: t in s.pc && Behind(s, base, s.pc[t])
  {
    PromiseOfAll(s, s', base);
    if AnyIo(s) {
      var t :| t in s.pc && s.pc[t].Io?;
      BehindLength(s, base, t);
      assert forall u :: u in s.pc && Behind(s, base, s.pc[u]) ==> InWindow(s.pc[t]) && InWindow(s.pc[u]);
    } else {
      assert Settled(s, base);
    }
  }

  lemma PromiseOfAll(s: State, s': State, base: seq<byte>)
    requires s'.log == s.log && s'.core.flushed == |s.log| && !s'.core.failed
    ensures FalsePromise(s', base) <==> s'.synced < |base + Flat(s.log)|
  {
    assert s'.log[..|s.log|] == s.log;
  }

  /** A batch carried from the `file` lock to publication without interruption. */
  function IoAlone(s: State, f: Tid): State
    requires f in s.pc && s.pc[f].Io? && s.pc[f].stage == Queued
    requires s.stateHeld == None && s.fileHeld == None && s.chunks != []
  {
    var s1 := Apply(s, LockFile(f));
    var s2 := if s.pc[f].batch == [] then s1 else Apply(s1, Write(f, |s.pc[f].batch|));
    var s3 := Apply(s2, Sync(f));
    Apply(s3, Publish(f))
  }

  lemma WriteWhole(s: State, f: Tid)
    requires f in s.pc && s.pc[f].Io? && s.pc[f].stage == Queued && s.fileHeld == None && s.chunks != []
    ensures var s1 := Apply(s, LockFile(f));
      s1.pc[f] == s.pc[f].(stage := Writing(0)) && s1.chunks == s.chunks && s1.log == s.log && s1.core == s.core
      && s1.stateHeld == s.stateHeld
    ensures s.pc[f].batch != [] ==>
      var s1 := Apply(s, LockFile(f));
      var s2 := Apply(s1, Write(f, |s.pc[f].batch|));
      s2.pc[f] == s.pc[f].(stage := Writing(|s.pc[f].batch|)) && s2.chunks == AppendToActive(s.chunks, s.pc[f].batch)
      && s2.log == s.log && s2.core == s.core && s2.stateHeld == s.stateHeld
  {
    assert s.pc[f].batch[0..|s.pc[f].batch|] == s.pc[f].batch;
  }

  lemma SyncAndPublish(s: State, f: Tid)
    requires f in s.pc && s.pc[f].Io? && s.pc[f].stage == Writing(|s.pc[f].batch|) && s.stateHeld == None
    ensures var s' := Apply(Apply(s, Sync(f)), Publish(f));
      s'.log == s.log && s'.chunks == s.chunks && s'.synced == |Written(s)|
      && s'.core.flushed == s.pc[f].flushTo && s'.core.failed == s.core.failed
  {
  }

  lemma IoAloneWrites(s: State, f: Tid)
    requires f in s.pc && s.pc[f].Io? && s.pc[f].stage == Queued
    requires s.stateHeld == None && s.fileHeld == None && s.chunks != []
    ensures var s' := IoAlone(s, f);
      s'.log == s.log && s'.core.flushed == s.pc[f].flushTo && s'.core.failed == s.core.failed
      && s'.synced == |Written(s)| + |s.pc[f].batch|
  {
    WriteWhole(s, f);
    var s1 := Apply(s, LockFile(f));
    var s2 := if s.pc[f].batch == [] then s1 else Apply(s1, Write(f, |s.pc[f].batch|));
    FlatAppend(s.chunks, s.pc[f].batch);
    SyncAndPublish(s2, f);
  }

  /** `flush_now`, run without interruption by thread `f`. */
  function FlushNowAlone(s: State, f: Tid): State
    requires f in s.pc && s.pc[f] == Idle && s.stateHeld == None && s.fileHeld == None && s.chunks != []
    requires !s.core.failed && s.core.buf != []
  {
    IoAlone(Apply(s, FlushTake(f)), f)
  }

  lemma FlushNowAloneWrites(s: State, f: Tid)
    requires f in s.pc && s.pc[f] == Idle && s.stateHeld == None && s.fileHeld == None && s.chunks != []
    requires !s.core.failed && s.core.buf != []
    ensures var s' := FlushNowAlone(s, f);
      s'.log == s.log && s'.core.flushed == s.core.enqueued && !s'.core.failed
      && s'.synced == |Written(s)| + |s.core.buf|
  {
    var taken := Apply(s, FlushTake(f));
    assert taken.pc[f] == Io(Flusher, s.core.buf, s.core.enqueued, Queued);
    IoAloneWrites(taken, f);
  }

  /**
   * With nothing buffered `flush_now` answers Ok at once. That answer is false exactly when another
   * thread's batch is in flight, not synced.
   */
  lemma OverlapFlushesNothing(s: State, base: seq<byte>, f: Tid)
    requires Inv(s, base) && s.stateHeld == None && !s.core.failed
    requires f in s.pc && s.pc[f] == Idle && s.core.buf == []
    ensures Enabled(s, FlushEmpty(f)) && Apply(s, FlushEmpty(f)).pc[f] == Flushed(true)
    ensures s.synced < |base + Flat(s.log)| <==> exists t :: t in s.pc && Unsynced(s.pc[t])
  {
    if AnyIo(s) {
      var t :| t in s.pc && s.pc[t].Io?;
      assert InFlight(s, base, s.pc[t]);
    } else {
      assert Settled(s, base);
    }
  }

  /** One thread's enqueue and election overlapped by another's `flush_now`. */
  function OverlapSteps(leader: Tid, f: Tid): seq<Step> {
    [ Enqueue(leader, [1]), Elect(leader), Take(leader), EnqueueMarker(f, [2]),
      FlushTake(f), LockFile(f), Write(f, 1), Sync(f), Publish(f) ]
  }

  /** Two threads, one chunk, nothing acknowledged. */
  function Pair(core: Core, log: seq<seq<byte>>, chunk: seq<byte>, synced: nat, file: Option<Tid>, p: Pc, q: Pc): State {
    State(core, log, [chunk], synced, None, file, map[0 := p, 1 := q], 0)
  }

  function OverlapState(base: seq<byte>, i: nat): State {
    var one, two := [[1]], [[1], [2]];
    var led := Io(Leader(1), [1], 1, Queued);
    var n := |base|;
    if i == 0 then Pair(Core([], 0, 0, false, false), [], base, n, None, Idle, Idle)
    else if i == 1 then Pair(Core([1], 1, 0, false, false), one, base, n, None, Waiting(1), Idle)
    else if i == 2 then Pair(Core([1], 1, 0, true, false), one, base, n, None, Leading(1), Idle)
    else if i == 3 then Pair(Core([], 1, 0, true, false), one, base, n, None, led, Idle)
    else if i == 4 then Pair(Core([2], 2, 0, true, false), two, base, n, None, led, Idle)
    else if i == 5 then Pair(Core([], 2, 0, true, false), two, base, n, None, led, Io(Flusher, [2], 2, Queued))
    else if i == 6 then Pair(Core([], 2, 0, true, false), two, base, n, Some(1), led, Io(Flusher, [2], 2, Writing(0)))
    else if i == 7 then
      Pair(Core([], 2, 0, true, false), two, base + [2], n, Some(1), led, Io(Flusher, [2], 2, Writing(1)))
    else if i == 8 then
      Pair(Core([], 2, 0, true, false), two, base + [2], n + 1, None, led, Io(Flusher, [2], 2, Finished(true)))
    else Pair(Core([], 2, 2, true, false), two, base + [2], n + 1, None, led, Flushed(true))
  }

  lemma OverlapStart(base: seq<byte>, i: nat)
    requires i < 6
    ensures var s, step := OverlapState(base, i), OverlapSteps(0, 1)[i];
      Enabled(s, step) && OverlapState(base, i + 1) == Apply(s, step)
  {
  }

  lemma OverlapEnd(base: seq<byte>, i: nat)
    requires 6 <= i < 9
    ensures var s, step := OverlapState(base, i), OverlapSteps(0, 1)[i];
      Enabled(s, step) && OverlapState(base, i + 1) == Apply(s, step)
  {
    assert [2][0..1] == [2];
    FlatSnoc([], base + [2]);
    assert [] + [base + [2]] == [base + [2]];
  }

  lemma OverlapExclusive(base: seq<byte>, i: nat)
    requires i < 9
    ensures Exclusive(OverlapState(base, i), OverlapSteps(0, 1)[i]) <==> i != 4
  {
    if i == 4 {
      assert InWindow(OverlapState(base, i).pc[0]);
    }
  }

  lemma OverlapFails(base: seq<byte>)
    ensures FalsePromise(OverlapState(base, 9), base)
  {
    FlatSnoc([[1]], [2]);
    FlatSnoc([], [1]);
    assert [[1]] + [[2]] == [[1], [2]] && [] + [[1]] == [[1]];
    assert [[1], [2]][..2] == [[1], [2]];
  }

  /** The overlap is reachable: one step of the run breaks the contract, and the promise is false. */
  lemma OverlapReachable(base: seq<byte>) returns (states: seq<State>)
    ensures var steps := OverlapSteps(0, 1);
      && FreeRun(states, steps, base) && FalsePromise(states[|steps|], base)
      && forall i :: 0 <= i < |steps| ==> (Exclusive(states[i], steps[i]) <==> i != 4)
  {
    states := seq(10, i requires 0 <= i < 10 => OverlapState(base, i));
    var steps := OverlapSteps(0, 1);
    forall i | 0 <= i < |steps|
      ensures Enabled(states[i], steps[i]) && states[i + 1] == Apply(states[i], steps[i])
      ensures Exclusive(states[i], steps[i]) <==> i != 4
    {
      if i < 6 { OverlapStart(base, i); } else { OverlapEnd(base, i); }
      OverlapExclusive(base, i);
    }
    OverlapFails(base);
  }

  /** What `LeaderGuard` would leave behind if the leader unwound after taking its batch. */
  function PanicAfterTake(s: State, leader: Tid): State
    requires leader in s.pc
  {
    s.(core := Abandoned(s.core), fileHeld := if HoldsFile(s.pc[leader]) then None else s.fileHeld,
       pc := s.pc[leader := Notifying])
  }

  /** A leader elected, taking whatever is buffered and publishing it, without interruption. */
  function LeadAlone(s: State, t: Tid): State
    requires t in s.pc && s.pc[t].Waiting? && s.stateHeld == None && s.fileHeld == None && s.chunks != []
    requires Judge(s.core, s.pc[t].ticket) == Lead
  {
    IoAlone(Apply(Apply(s, Elect(t)), Take(t)), t)
  }

  lemma LeadAloneWrites(s: State, t: Tid)
    requires t in s.pc && s.pc[t].Waiting? && s.stateHeld == None && s.fileHeld == None && s.chunks != []
    requires Judge(s.core, s.pc[t].ticket) == Lead
    ensures var s' := LeadAlone(s, t);
      s'.log == s.log && s'.core.flushed == s.core.enqueued && !s'.core.failed
      && s'.synced == |Written(s)| + |s.core.buf|
  {
    var led := Apply(s, Elect(t));
    var taken := Apply(led, Take(t));
    assert taken.pc[t] == Io(Leader(s.pc[t].ticket), s.core.buf, s.core.enqueued, Queued);
    IoAloneWrites(taken, t);
  }

  /**
   * A leader that panics between its take and its publication hands over to the next leader. What
   * that one publishes is false exactly when the lost batch was not all in the file.
   */
  lemma PanicAfterTakeLosesBatch(s: State, base: seq<byte>, leader: Tid, t: Tid)
    requires Inv(s, base) && leader in s.pc && t in s.pc && s.stateHeld == None
    requires s.pc[leader].Io? && s.pc[leader].role.Leader? && (s.fileHeld.Some? ==> HoldsFile(s.pc[leader]))
    requires s.pc[t].Waiting? && s.core.flushed < s.pc[t].ticket
    ensures FalsePromise(LeadAlone(PanicAfterTake(s, leader), t), base) <==> Behind(s, base, s.pc[leader])
  {
    BehindLength(s, base, leader);
    LeadAloneWrites(PanicAfterTake(s, leader), t);
    PromiseOfAll(s, LeadAlone(PanicAfterTake(s, leader), t), base);
  }
}
