/** Every interleaving of enqueuers, leaders, followers and exclusive flushes is safe. */
module GroupCommitSafety {
  import opened Bytes
  import opened GroupCommit
  import opened Wrappers

  // ---------------------------------------------------------------- bytes

  lemma FlatSnoc(parts: seq<seq<byte>>, x: seq<byte>)
    ensures Flat(parts + [x]) == Flat(parts) + x
  {
    assert (parts + [x])[..|parts|] == parts;
  }

  lemma FlatAppend(chunks: seq<seq<byte>>, x: seq<byte>)
    requires chunks != []
    ensures Flat(AppendToActive(chunks, x)) == Flat(chunks) + x
  {
    var front, last := chunks[..|chunks| - 1], chunks[|chunks| - 1];
    FlatSnoc(front, last + x);
    FlatSnoc(front, last);
    assert front + [last] == chunks;
    assert Flat(front) + (last + x) == Flat(front) + last + x;
  }

  lemma FlatRotate(chunks: seq<seq<byte>>)
    ensures Flat(chunks + [[]]) == Flat(chunks)
  {
    FlatSnoc(chunks, []);
  }

  lemma {:induction false} FlatPrefix(log: seq<seq<byte>>, k: nat)
    requires k <= |log|
    ensures Flat(log[..k]) <= Flat(log)
    decreases |log|
  {
    if k == |log| {
      assert log[..k] == log;
    } else {
      var front := log[..|log| - 1];
      FlatPrefix(front, k);
      assert front[..k] == log[..k];
    }
  }

  lemma FlatTake(log: seq<seq<byte>>, record: seq<byte>, k: nat)
    requires k <= |log|
    ensures Flat((log + [record])[..k]) == Flat(log[..k])
  {
    assert (log + [record])[..k] == log[..k];
  }

  // ---------------------------------------------------------------- control invariant

  predicate InWindow(pc: Pc) {
    pc.Leading? || pc.Io?
  }

  predicate IsLeader(pc: Pc) {
    pc.Leading? || (pc.Io? && pc.role.Leader?)
  }

  predicate HoldsFile(pc: Pc) {
    pc.Io? && pc.stage.Writing?
  }

  /** No two threads between election (or `flush_now`'s take) and publication. */
  ghost predicate OneWindow(s: State) {
    forall t, u :: t in s.pc && u in s.pc && InWindow(s.pc[t]) && InWindow(s.pc[u]) ==> t == u
  }

  ghost predicate LeaderFlag(s: State) {
    && (forall t :: t in s.pc && IsLeader(s.pc[t]) ==> s.core.leaderActive)
    && (s.core.leaderActive ==> exists t :: t in s.pc && IsLeader(s.pc[t]))
  }

  ghost predicate FileLock(s: State) {
    && (forall t :: t in s.pc && HoldsFile(s.pc[t]) ==> s.fileHeld == Some(t))
    && (s.fileHeld.Some? ==> s.fileHeld.value in s.pc && HoldsFile(s.pc[s.fileHeld.value]))
  }

  ghost predicate StateLock(s: State) {
    && (forall t :: t in s.pc && s.pc[t] == Swapping ==> s.stateHeld == Some(t))
    && (s.stateHeld.Some? ==> s.stateHeld.value in s.pc && s.pc[s.stateHeld.value] == Swapping)
  }

  ghost predicate Locks(s: State) {
    FileLock(s) && StateLock(s)
  }

  predicate TicketOk(pc: Pc, flushed: nat, n: nat) {
    match pc
    case Waiting(ticket) => 1 <= ticket <= n
    case Parked(ticket) => 1 <= ticket <= n
    case Leading(ticket) => 1 <= ticket <= n
    case Returned(ticket, _) => 1 <= ticket <= n
    case Io(role, batch, flushTo, stage) =>
      flushed <= flushTo <= n && (role.Leader? ==> 1 <= role.ticket <= flushTo) && (stage.Writing? ==> stage.done <= |batch|)
    case _ => true
  }

  ghost predicate Tickets(s: State) {
    && s.core.enqueued == |s.log| && s.core.flushed <= |s.log| && s.acked <= |s.log|
    && (forall t :: t in s.pc ==> TicketOk(s.pc[t], s.core.flushed, |s.log|))
  }

  /** A parked follower always has someone who will wake it. */
  ghost predicate Woken(s: State) {
    forall t :: t in s.pc && s.pc[t].Parked? ==> s.core.leaderActive || exists u :: u in s.pc && s.pc[u] == Notifying
  }

  ghost predicate Control(s: State) {
    s.chunks != [] && OneWindow(s) && LeaderFlag(s) && Locks(s) && Tickets(s) && Woken(s)
  }

  /**
   * The contract of `flush_now`: it starts with no leader in its window, and none is elected while
   * it runs. Leaders alone need no contract: `leader_active` keeps them apart.
   */
  ghost predicate Exclusive(s: State, step: Step) {
    && (step.FlushTake? || step.FlushEmpty? ==> forall t :: t in s.pc ==> !InWindow(s.pc[t]))
    && (step.Elect? ==> forall t :: t in s.pc ==> !s.pc[t].Io?)
  }

  lemma OthersKept(s: State, step: Step)
    requires Enabled(s, step)
    ensures var s' := Apply(s, step);
      forall t :: t in s'.pc ==> t in s.pc && (t != step.t ==>
        s'.pc[t] == s.pc[t] || (s.pc[t].Parked? && s'.pc[t] == Waiting(s.pc[t].ticket)))
  {
  }

  lemma KeepsOneWindow(s: State, step: Step)
    requires Enabled(s, step) && Control(s) && Exclusive(s, step)
    ensures OneWindow(Apply(s, step))
  {
    OthersKept(s, step);
  }

  lemma KeepsFlagSet(s: State, step: Step)
    requires Enabled(s, step) && OneWindow(s) && LeaderFlag(s) && Exclusive(s, step)
    ensures var s' := Apply(s, step);
            forall t :: t in s'.pc && IsLeader(s'.pc[t]) ==> s'.core.leaderActive
  {
    OthersKept(s, step);
  }

  lemma KeepsFlagOwned(s: State, step: Step)
    requires Enabled(s, step) && LeaderFlag(s)
    ensures var s' := Apply(s, step);
            s'.core.leaderActive ==> exists t :: t in s'.pc && IsLeader(s'.pc[t])
  {
    var s' := Apply(s, step);
    if step.Elect? {
      assert IsLeader(s'.pc[step.t]);
    } else if s'.core.leaderActive {
      var l :| l in s.pc && IsLeader(s.pc[l]);
      assert l in s'.pc;
    }
  }

  lemma KeepsFileLock(s: State, step: Step)
    requires Enabled(s, step) && Locks(s)
    ensures FileLock(Apply(s, step))
  {
    OthersKept(s, step);
  }

  lemma KeepsStateLock(s: State, step: Step)
    requires Enabled(s, step) && Locks(s)
    ensures StateLock(Apply(s, step))
  {
    OthersKept(s, step);
  }

  lemma KeepsCounts(s: State, step: Step)
    requires Enabled(s, step) && Tickets(s)
    ensures var s' := Apply(s, step);
            s'.core.enqueued == |s'.log| && s'.core.flushed <= |s'.log| && s'.acked <= |s'.log|
  {
    assert TicketOk(s.pc[step.t], s.core.flushed, |s.log|);
  }

  lemma KeepsTickets(s: State, step: Step)
    requires Enabled(s, step) && OneWindow(s) && Tickets(s)
    ensures Tickets(Apply(s, step))
  {
    OthersKept(s, step);
    KeepsCounts(s, step);
  }

  lemma KeepsWoken(s: State, step: Step)
    requires Enabled(s, step) && Control(s)
    ensures Woken(Apply(s, step))
  {
    OthersKept(s, step);
    var s' := Apply(s, step);
    forall t | t in s'.pc && s'.pc[t].Parked? && !s'.core.leaderActive
      ensures exists u :: u in s'.pc && s'.pc[u] == Notifying
    {
      if step.Panic? {
        assert s'.pc[step.t] == Notifying;
      } else {
        assert !step.Park? && s.pc[t].Parked? && !s.core.leaderActive;
        var u :| u in s.pc && s.pc[u] == Notifying;
        assert u in s'.pc && s'.pc[u] == Notifying;
      }
    }
  }

  lemma KeepsControl(s: State, step: Step)
    requires Enabled(s, step) && Control(s) && Exclusive(s, step)
    ensures Control(Apply(s, step))
  {
    KeepsOneWindow(s, step);
    KeepsFlagSet(s, step);
    KeepsFlagOwned(s, step);
    KeepsFileLock(s, step);
    KeepsStateLock(s, step);
    KeepsTickets(s, step);
    KeepsWoken(s, step);
  }

  // ---------------------------------------------------------------- byte invariant

  /** The bytes of the first `k` records, after what the chunk held at start-up. */
  ghost function Upto(s: State, base: seq<byte>, k: nat): seq<byte>
    requires k <= |s.log|
  {
    base + Flat(s.log[..k])
  }

  /** Record `k` and all before it are durable. */
  ghost predicate DurableTo(s: State, base: seq<byte>, k: nat) {
    k <= |s.log| && Upto(s, base, k) <= Written(s) && |Upto(s, base, k)| <= s.synced
  }

  /** Where the bytes of the batch in flight are. */
  ghost predicate InFlight(s: State, base: seq<byte>, pc: Pc) {
    pc.Io? && pc.flushTo <= |s.log| &&
    Upto(s, base, pc.flushTo) + s.core.buf == base + Flat(s.log) &&
    (pc.stage != Finished(true) ==> s.synced + |pc.batch| == |Upto(s, base, pc.flushTo)|) &&
    match pc.stage
    case Queued =>
      Written(s) + pc.batch == Upto(s, base, pc.flushTo)
      && s.core.flushed <= |s.log| && Written(s) == Upto(s, base, s.core.flushed)
    case Writing(done) => done <= |pc.batch| && Written(s) + pc.batch[done..] == Upto(s, base, pc.flushTo)
    case Finished(ok) =>
      if ok then Written(s) == Upto(s, base, pc.flushTo) && s.synced == |Written(s)|
      else Written(s) <= Upto(s, base, pc.flushTo)
  }

  ghost predicate Settled(s: State, base: seq<byte>) {
    s.core.flushed <= |s.log| && Written(s) == Upto(s, base, s.core.flushed) && s.synced == |Written(s)| &&
    Written(s) + s.core.buf == base + Flat(s.log)
  }

  ghost predicate AnyIo(s: State) {
    exists t :: t in s.pc && s.pc[t].Io?
  }

  /** Synced bytes, the batch in flight and the buffer are together every record in order. */
  ghost predicate Accounted(s: State, base: seq<byte>) {
    && s.synced <= |Written(s)|
    && Written(s) <= base + Flat(s.log)
    && DurableTo(s, base, s.acked)
    && (!s.core.failed ==> DurableTo(s, base, s.core.flushed))
    && (s.core.failed ==> forall t :: t in s.pc ==> !InWindow(s.pc[t]))
    && (forall t :: t in s.pc && s.pc[t].Io? ==> InFlight(s, base, s.pc[t]))
    && (!s.core.failed && !AnyIo(s) ==> Settled(s, base))
  }

  lemma Regroup(a: seq<byte>, b: seq<byte>, c: seq<byte>)
    ensures (a + b) + c == a + (b + c)
  {
  }

  lemma GrowPrefix(a: seq<byte>, b: seq<byte>, r: seq<byte>)
    requires a <= b
    ensures a <= b + r
  {
  }

  lemma ShorterPrefix(a: seq<byte>, b: seq<byte>, c: seq<byte>)
    requires a + b == c
    ensures a <= c
  {
  }

  lemma MoveBytes(w: seq<byte>, batch: seq<byte>, done: nat, n: nat)
    requires done + n <= |batch|
    ensures (w + batch[done..done + n]) + batch[done + n..] == w + batch[done..]
  {
  }

  lemma UptoPrefix(s: State, base: seq<byte>, k: nat)
    requires k <= |s.log|
    ensures Upto(s, base, k) <= base + Flat(s.log)
  {
    FlatPrefix(s.log, k);
  }

  lemma DurableDown(s: State, base: seq<byte>, j: nat, k: nat)
    requires j <= k && DurableTo(s, base, k)
    ensures DurableTo(s, base, j)
  {
    FlatPrefix(s.log[..k], j);
    assert s.log[..k][..j] == s.log[..j];
  }

  /** States that agree on bytes, counters and batches in flight are accounted for alike. */
  lemma Frame(s: State, s': State, base: seq<byte>)
    requires Accounted(s, base)
    requires Written(s') == Written(s) && s'.log == s.log && s'.synced == s.synced
    requires s'.core.buf == s.core.buf && s'.core.flushed == s.core.flushed && s'.core.failed == s.core.failed
    requires forall t :: t in s'.pc && s'.pc[t].Io? ==> t in s.pc && s.pc[t] == s'.pc[t]
    requires forall t :: t in s.pc && s.pc[t].Io? ==> t in s'.pc && s'.pc[t] == s.pc[t]
    requires s.core.failed ==> forall t :: t in s'.pc ==> !InWindow(s'.pc[t])
    requires DurableTo(s, base, s'.acked)
    ensures Accounted(s', base)
  {
    if AnyIo(s) {
      var t :| t in s.pc && s.pc[t].Io?;
      assert t in s'.pc && s'.pc[t].Io?;
    }
  }

  lemma KeepsQuiet(s: State, step: Step, base: seq<byte>)
    requires Enabled(s, step) && Control(s) && Accounted(s, base)
    requires step.CheckPoisoned? || step.CheckDurable? || step.Park? || step.Spurious? || step.NotifyAfterPanic?
      || step.FlushPoisoned? || step.FlushEmpty? || step.RotateLock? || step.Leave? || step.Panic? || step.Elect?
      || step.RotateSwap?
    ensures Accounted(Apply(s, step), base)
  {
    QuietShape(s, step);
    if step.CheckDurable? {
      DurableDown(s, base, s.pc[step.t].ticket, s.core.flushed);
    }
    Frame(s, Apply(s, step), base);
  }

  lemma QuietShape(s: State, step: Step)
    requires Enabled(s, step)
    requires step.CheckPoisoned? || step.CheckDurable? || step.Park? || step.Spurious? || step.NotifyAfterPanic?
      || step.FlushPoisoned? || step.FlushEmpty? || step.RotateLock? || step.Leave? || step.Panic? || step.Elect?
      || step.RotateSwap?
    ensures var s' := Apply(s, step);
      && Written(s') == Written(s) && s'.log == s.log && s'.synced == s.synced
      && s'.core.buf == s.core.buf && s'.core.flushed == s.core.flushed && s'.core.failed == s.core.failed
      && (forall t :: t in s'.pc && s'.pc[t].Io? ==> t in s.pc && s.pc[t] == s'.pc[t])
      && (forall t :: t in s.pc && s.pc[t].Io? ==> t in s'.pc && s'.pc[t] == s.pc[t])
      && ((forall t :: t in s.pc ==> !InWindow(s.pc[t])) && s.core.failed ==> forall t :: t in s'.pc ==> !InWindow(s'.pc[t]))
      && (!step.CheckDurable? ==> s'.acked == s.acked)
  {
    OthersKept(s, step);
    FlatRotate(s.chunks);
  }

  // `s'` has one record more in its log and its buffer, and is otherwise like `s`.
  ghost predicate Grown(s: State, s': State, r: seq<byte>) {
    && Written(s') == Written(s) && s'.log == s.log + [r] && s'.synced == s.synced && s'.acked == s.acked
    && s'.core.buf == s.core.buf + r && s'.core.flushed == s.core.flushed && s'.core.failed == s.core.failed
    && (forall t :: t in s'.pc && s'.pc[t].Io? ==> t in s.pc && s.pc[t] == s'.pc[t])
    && (forall t :: t in s.pc && s.pc[t].Io? ==> t in s'.pc && s'.pc[t] == s.pc[t])
    && (s.core.failed && (forall t :: t in s.pc ==> !InWindow(s.pc[t])) ==> forall t :: t in s'.pc ==> !InWindow(s'.pc[t]))
  }

  lemma EnqueueGrows(s: State, step: Step)
    requires Enabled(s, step) && (step.Enqueue? || step.EnqueueMarker?)
    ensures Grown(s, Apply(s, step), step.record)
  {
    OthersKept(s, step);
  }

  lemma GrownFlat(s: State, s': State, r: seq<byte>, base: seq<byte>)
    requires Grown(s, s', r)
    ensures base + Flat(s'.log) == (base + Flat(s.log)) + r
  {
    FlatSnoc(s.log, r);
    Regroup(base, Flat(s.log), r);
  }

  lemma GrownUpto(s: State, s': State, r: seq<byte>, base: seq<byte>, k: nat)
    requires Grown(s, s', r) && k <= |s.log|
    ensures Upto(s', base, k) == Upto(s, base, k)
  {
    FlatTake(s.log, r, k);
  }

  lemma GrownInFlight(s: State, s': State, r: seq<byte>, base: seq<byte>, pc: Pc)
    requires Grown(s, s', r) && InFlight(s, base, pc)
    ensures InFlight(s', base, pc)
  {
    GrownFlat(s, s', r, base);
    GrownUpto(s, s', r, base, pc.flushTo);
    if pc.stage == Queued { GrownUpto(s, s', r, base, s.core.flushed); }
    Regroup(Upto(s, base, pc.flushTo), s.core.buf, r);
  }

  lemma GrownSettled(s: State, s': State, r: seq<byte>, base: seq<byte>)
    requires Grown(s, s', r) && Settled(s, base)
    ensures Settled(s', base)
  {
    GrownFlat(s, s', r, base);
    GrownUpto(s, s', r, base, s.core.flushed);
    Regroup(Written(s), s.core.buf, r);
  }

  lemma GrownDurable(s: State, s': State, r: seq<byte>, base: seq<byte>, k: nat)
    requires Grown(s, s', r) && DurableTo(s, base, k)
    ensures DurableTo(s', base, k)
  {
    GrownUpto(s, s', r, base, k);
  }

  lemma KeepsEnqueue(s: State, step: Step, base: seq<byte>)
    requires Enabled(s, step) && Control(s) && Accounted(s, base)
    requires step.Enqueue? || step.EnqueueMarker?
    ensures Accounted(Apply(s, step), base)
  {
    EnqueueGrows(s, step);
    GrownAccounted(s, Apply(s, step), step.record, base);
  }

  lemma GrownAccounted(s: State, s': State, r: seq<byte>, base: seq<byte>)
    requires Grown(s, s', r) && Accounted(s, base)
    ensures Accounted(s', base)
  {
    GrownFlat(s, s', r, base);
    GrowPrefix(Written(s), base + Flat(s.log), r);
    GrownDurable(s, s', r, base, s.acked);
    if !s.core.failed { GrownDurable(s, s', r, base, s.core.flushed); }
    forall t | t in s'.pc && s'.pc[t].Io? ensures InFlight(s', base, s'.pc[t]) {
      GrownInFlight(s, s', r, base, s.pc[t]);
    }
    if AnyIo(s) {
      var t :| t in s.pc && s.pc[t].Io?;
      assert t in s'.pc && s'.pc[t].Io?;
    } else if !s.core.failed {
      GrownSettled(s, s', r, base);
    }
  }

  lemma KeepsTake(s: State, step: Step, base: seq<byte>)
    requires Enabled(s, step) && Control(s) && Exclusive(s, step) && Accounted(s, base)
    requires step.Take? || step.FlushTake?
    ensures Accounted(Apply(s, step), base)
  {
    var s' := Apply(s, step);
    OthersKept(s, step);
    assert !s.core.failed;
    assert !AnyIo(s);
    assert forall t :: t in s'.pc && s'.pc[t].Io? ==> t == step.t;
    assert s.log[..|s.log|] == s.log;
    assert (base + Flat(s.log)) + [] == base + Flat(s.log);
    assert s'.pc[step.t].Io?;
  }

  /** The only batch in flight moves on; nothing else changes. */
  lemma IoFrame(s: State, s': State, t: Tid, base: seq<byte>)
    requires Control(s) && Accounted(s, base) && t in s.pc && s.pc[t].Io?
    requires s'.log == s.log && s'.core == s.core && s'.acked == s.acked
    requires t in s'.pc && forall u :: u in s'.pc && u != t ==> u in s.pc && s'.pc[u] == s.pc[u]
    requires InFlight(s', base, s'.pc[t])
    requires Written(s) <= Written(s') <= base + Flat(s.log) && s.synced <= s'.synced <= |Written(s')|
    ensures Accounted(s', base)
  {
  }

  // Writing some of the bytes moves them from the batch to the file.
  lemma WriteMoves(s: State, s': State, base: seq<byte>, pc: Pc, n: nat)
    requires InFlight(s, base, pc) && pc.stage.Writing? && pc.stage.done + n <= |pc.batch|
    requires s'.log == s.log && s'.core == s.core && s'.synced == s.synced
    requires Written(s') == Written(s) + pc.batch[pc.stage.done..pc.stage.done + n]
    ensures InFlight(s', base, pc.(stage := Writing(pc.stage.done + n)))
    ensures Written(s) <= Written(s') <= base + Flat(s.log)
  {
    var done := pc.stage.done;
    MoveBytes(Written(s), pc.batch, done, n);
    UptoPrefix(s, base, pc.flushTo);
    ShorterPrefix(Written(s'), pc.batch[done + n..], Upto(s, base, pc.flushTo));
  }

  ghost predicate Wrote(s: State, s': State, t: Tid, n: nat) {
    t in s.pc && s.pc[t].Io? && s.pc[t].stage.Writing? && s.pc[t].stage.done + n <= |s.pc[t].batch| &&
    var done := s.pc[t].stage.done;
    && s'.log == s.log && s'.core == s.core && s'.acked == s.acked && s'.synced == s.synced
    && s'.pc == s.pc[t := s.pc[t].(stage := Writing(done + n))]
    && Written(s') == Written(s) + s.pc[t].batch[done..done + n]
  }

  lemma WriteShape(s: State, step: Step)
    requires Enabled(s, step) && step.Write?
    ensures Wrote(s, Apply(s, step), step.t, step.bytes)
  {
    var done := s.pc[step.t].stage.done;
    FlatAppend(s.chunks, s.pc[step.t].batch[done..done + step.bytes]);
  }

  lemma WroteAccounted(s: State, s': State, t: Tid, n: nat, base: seq<byte>)
    requires Control(s) && Accounted(s, base) && Wrote(s, s', t, n)
    ensures Accounted(s', base)
  {
    assert InFlight(s, base, s.pc[t]);
    WriteMoves(s, s', base, s.pc[t], n);
    IoFrame(s, s', t, base);
  }

  lemma KeepsWrite(s: State, step: Step, base: seq<byte>)
    requires Enabled(s, step) && Control(s) && Accounted(s, base) && step.Write?
    ensures Accounted(Apply(s, step), base)
  {
    WriteShape(s, step);
    WroteAccounted(s, Apply(s, step), step.t, step.bytes, base);
  }

  lemma KeepsLockSyncFail(s: State, step: Step, base: seq<byte>)
    requires Enabled(s, step) && Control(s) && Accounted(s, base)
    requires step.LockFile? || step.Sync? || step.Fail?
    ensures Accounted(Apply(s, step), base)
  {
    var pc := s.pc[step.t];
    assert InFlight(s, base, pc);
    NoTail(Written(s), pc.batch);
    if step.Fail? {
      ShorterPrefix(Written(s), pc.batch[pc.stage.done..], Upto(s, base, pc.flushTo));
    }
    IoFrame(s, Apply(s, step), step.t, base);
  }

  lemma NoTail(w: seq<byte>, batch: seq<byte>)
    ensures batch[0..] == batch && w + batch[|batch|..] == w
  {
  }

  lemma KeepsPublish(s: State, step: Step, base: seq<byte>)
    requires Enabled(s, step) && Control(s) && Accounted(s, base) && step.Publish?
    ensures Accounted(Apply(s, step), base)
  {
    var s' := Apply(s, step);
    var pc := s.pc[step.t];
    OthersKept(s, step);
    assert InFlight(s, base, pc);
    assert forall t :: t in s'.pc ==> !InWindow(s'.pc[t]);
    UptoPrefix(s, base, pc.flushTo);
  }

  lemma KeepsAccounted(s: State, step: Step, base: seq<byte>)
    requires Enabled(s, step) && Control(s) && Exclusive(s, step) && Accounted(s, base)
    ensures Accounted(Apply(s, step), base)
  {
    match step
    case Enqueue(_, _) => KeepsEnqueue(s, step, base);
    case EnqueueMarker(_, _) => KeepsEnqueue(s, step, base);
    case Take(_) => KeepsTake(s, step, base);
    case FlushTake(_) => KeepsTake(s, step, base);
    case Write(_, _) => KeepsWrite(s, step, base);
    case LockFile(_) => KeepsLockSyncFail(s, step, base);
    case Sync(_) => KeepsLockSyncFail(s, step, base);
    case Fail(_) => KeepsLockSyncFail(s, step, base);
    case Publish(_) => KeepsPublish(s, step, base);
    case _ => KeepsQuiet(s, step, base);
  }
}
