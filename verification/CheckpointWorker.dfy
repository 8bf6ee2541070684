/** The single-slot background checkpoint worker, one step per critical section. */
module CheckpointWorker {
  import opened Wrappers

  type Tid = nat

  // Snapshot jobs and their failures are opaque to the worker.
  type Job = nat
  type Error = nat

  // ---------------------------------------------------------------- the mutex-guarded fields

  /** `CheckpointState`. */
  datatype Slot = Slot(pending: Option<Job>, inflight: bool, lastError: Option<Error>, shutdown: bool)

  const IDLE := Slot(None, false, None, false)

  predicate Busy(c: Slot) {
    c.pending.Some? || c.inflight
  }

  datatype Answer = Accepted | Skipped | Failed(error: Error)

  function AskedFor(c: Slot): Answer {
    if c.lastError.Some? then Failed(c.lastError.value) else if Busy(c) then Skipped else Accepted
  }

  function Enqueued(c: Slot, job: Job): Slot {
    match AskedFor(c)
    case Failed(_) => c.(lastError := None)
    case Skipped => c
    case Accepted => c.(pending := Some(job))
  }

  function Finished(c: Slot, result: Option<Error>): Slot {
    c.(inflight := false, lastError := if result.Some? then result else c.lastError)
  }

  class CheckpointState {
    var pending: Option<Job>
    var inflight: bool
    var lastError: Option<Error>
    var shutdown: bool

    function Abs(): Slot
      reads this
    {
      Slot(pending, inflight, lastError, shutdown)
    }

    constructor ()
      ensures Abs() == IDLE
    {
      pending, inflight, lastError, shutdown := None, false, None, false;
    }

    /** `try_enqueue`; the caller notifies when the job was accepted. */
    method TryEnqueue(job: Job) returns (answer: Answer)
      modifies this
      ensures answer == AskedFor(old(Abs())) && Abs() == Enqueued(old(Abs()), job)
    {
      if lastError.Some? {
        answer := Failed(lastError.value);
        lastError := None;
        return;
      }
      if pending.Some? || inflight {
        return Skipped;
      }
      pending := Some(job);
      return Accepted;
    }

    /** One pass of the loop in `wait`: go on waiting, or leave with the stored error. */
    method CheckIdle() returns (wait: bool, error: Option<Error>)
      modifies this
      ensures wait == Busy(old(Abs()))
      ensures error == if wait then None else old(lastError)
      ensures Abs() == if wait then old(Abs()) else old(Abs()).(lastError := None)
    {
      if pending.Some? || inflight {
        return true, None;
      }
      wait, error := false, lastError;
      lastError := None;
    }

    /** The worker's first critical section, with its job when there is one. */
    method Take() returns (park: bool, job: Option<Job>)
      modifies this
      ensures park == (old(pending).None? && !shutdown)
      ensures job == old(pending)
      ensures Abs() == if job.None? then old(Abs()) else old(Abs()).(pending := None, inflight := true)
    {
      park, job := pending.None? && !shutdown, pending;
      if pending.Some? {
        pending := None;
        inflight := true;
      }
    }

    method Finish(result: Option<Error>)
      modifies this
      ensures Abs() == Finished(old(Abs()), result)
    {
      inflight := false;
      if result.Some? {
        lastError := result;
      }
    }

    method Close()
      modifies this
      ensures Abs() == old(Abs()).(shutdown := true)
    {
      shutdown := true;
    }
  }

  // ---------------------------------------------------------------- threads and the condition variable

  datatype Worker = Looking | Parked | Running(job: Job) | Exited

  /** What has happened, beside the fields and the threads. */
  datatype History = History(
    accepted: seq<Job>, finished: seq<Job>, raised: seq<Error>, received: seq<Error>)

  /** `parked` and `awake` are the threads inside `wait`. */
  datatype State = State(slot: Slot, worker: Worker, parked: set<Tid>, awake: set<Tid>, log: History)

  function Init(): State {
    State(IDLE, Looking, {}, {}, History([], [], [], []))
  }

  // The thread a `notify_one` wakes.
  datatype Woken = Nobody | TheWorker | Waiter(t: Tid)

  datatype Step =
    | Enqueue(job: Job, woken: Woken)
    | WaitPass(t: Tid)
    | WorkerPass
    | JobDone(result: Option<Error>)
    | Spurious(woken: Woken)
    | Shutdown(woken: Woken)

  predicate CanWake(s: State, w: Woken) {
    match w
    case Nobody => s.worker != Parked && s.parked == {}
    case TheWorker => s.worker == Parked
    case Waiter(t) => t in s.parked
  }

  function Wake(s: State, w: Woken): State {
    match w
    case Nobody => s
    case TheWorker => s.(worker := Looking)
    case Waiter(t) => s.(parked := s.parked - {t}, awake := s.awake + {t})
  }

  /**
   * Dropping the worker needs exclusive access to it, so no call is in
   * progress then and none begins afterwards.
   */
  predicate Enabled(s: State, step: Step) {
    match step
    case Enqueue(_, w) => !s.slot.shutdown && (AskedFor(s.slot) == Accepted ==> CanWake(s, w))
    case WaitPass(t) => !s.slot.shutdown && t !in s.parked
    case WorkerPass => s.worker == Looking
    case JobDone(_) => s.worker.Running?
    case Spurious(w) => w != Nobody && CanWake(s, w)
    case Shutdown(w) => !s.slot.shutdown && s.parked == {} && s.awake == {} && CanWake(s, w)
  }

  function Receive(log: History, error: Option<Error>): History {
    if error.Some? then log.(received := log.received + [error.value]) else log
  }

  function Apply(s: State, step: Step): State
    requires Enabled(s, step)
  {
    match step
    case Enqueue(job, w) =>
      var s' := s.(slot := Enqueued(s.slot, job));
      (match AskedFor(s.slot)
       case Failed(e) => s'.(log := Receive(s.log, Some(e)))
       case Skipped => s'
       case Accepted => Wake(s'.(log := s.log.(accepted := s.log.accepted + [job])), w))
    case WaitPass(t) =>
      if Busy(s.slot) then s.(parked := s.parked + {t}, awake := s.awake - {t})
      else s.(slot := s.slot.(lastError := None), awake := s.awake - {t}, log := Receive(s.log, s.slot.lastError))
    case WorkerPass =>
      if s.slot.pending.Some? then
        s.(slot := s.slot.(pending := None, inflight := true), worker := Running(s.slot.pending.value))
      else if s.slot.shutdown then s.(worker := Exited)
      else s.(worker := Parked)
    case JobDone(result) =>
      var log := s.log.(finished := s.log.finished + [s.worker.job]);
      State(Finished(s.slot, result), Looking, {}, s.awake + s.parked,
            if result.Some? then log.(raised := log.raised + [result.value]) else log)
    case Spurious(w) => Wake(s, w)
    case Shutdown(w) => Wake(s.(slot := s.slot.(shutdown := true)), w)
  }

  // ---------------------------------------------------------------- invariants

  function Held<T>(o: Option<T>): seq<T> {
    if o.Some? then [o.value] else []
  }

  function InFlight(s: State): seq<Job> {
    if s.worker.Running? then [s.worker.job] else []
  }

  /** At most one job is pending or in flight, and the accepted ones run in order. */
  predicate Ordered(s: State) {
    && (s.slot.inflight <==> s.worker.Running?)
    && !(s.slot.pending.Some? && s.slot.inflight)
    && s.log.accepted == s.log.finished + InFlight(s) + Held(s.slot.pending)
  }

  /** A stored error means an idle worker; failures are received in the order they were raised. */
  predicate ErrorsKept(s: State) {
    && (s.slot.lastError.Some? ==> !Busy(s.slot))
    && s.log.raised == s.log.received + Held(s.slot.lastError)
  }

  /** Nobody sleeps through what it waits for. */
  predicate NoLostWakeup(s: State) {
    && (s.worker == Parked ==> s.slot.pending.None? && !s.slot.shutdown)
    && (s.parked != {} ==> Busy(s.slot))
    && (s.worker == Exited ==> s.slot.shutdown && s.slot.pending.None?)
  }

  predicate Inv(s: State) {
    Ordered(s) && ErrorsKept(s) && NoLostWakeup(s)
  }

  lemma KeepsInv(s: State, step: Step)
    requires Inv(s) && Enabled(s, step)
    ensures Inv(Apply(s, step))
  {
    // The parked worker is the only thread a notify_one could wake.
    assert s.worker == Parked ==> !Busy(s.slot) && s.parked == {};
  }

  predicate Run(states: seq<State>, steps: seq<Step>) {
    && |states| == |steps| + 1 && states[0] == Init()
    && (forall i :: 0 <= i < |steps| ==> Enabled(states[i], steps[i]) && states[i + 1] == Apply(states[i], steps[i]))
  }

  lemma {:induction false} RunInv(states: seq<State>, steps: seq<Step>, i: nat)
    requires Run(states, steps) && i < |states|
    ensures Inv(states[i])
  {
    if i > 0 {
      RunInv(states, steps, i - 1);
      KeepsInv(states[i - 1], steps[i - 1]);
    }
  }

  // ---------------------------------------------------------------- whole runs

  predicate Prefix<T(==)>(a: seq<T>, b: seq<T>) {
    |a| <= |b| && a == b[..|a|]
  }

  /** Every accepted job is run once, in the order accepted; at most the last is not done yet. */
  lemma JobsRunOnceInOrder(states: seq<State>, steps: seq<Step>, i: nat)
    requires Run(states, steps) && i < |states|
    ensures var s := states[i];
            Prefix(s.log.finished, s.log.accepted) && |s.log.accepted| <= |s.log.finished| + 1
    ensures states[i].worker == Exited ==> states[i].log.finished == states[i].log.accepted
  {
    RunInv(states, steps, i);
  }

  /** A call of `wait` that returns leaves every job accepted so far done and every failure received. */
  lemma WaitMeansDone(states: seq<State>, steps: seq<Step>, i: nat)
    requires Run(states, steps) && i < |steps| && steps[i].WaitPass? && steps[i].t !in states[i + 1].parked
    ensures states[i + 1].log.finished == states[i + 1].log.accepted
    ensures states[i + 1].log.received == states[i + 1].log.raised
  {
    RunInv(states, steps, i);
    RunInv(states, steps, i + 1);
  }

  /** No failure is overwritten: at most the last one raised is still to be received. */
  lemma FailuresReachACaller(states: seq<State>, steps: seq<Step>, i: nat)
    requires Run(states, steps) && i < |states|
    ensures var s := states[i];
            Prefix(s.log.received, s.log.raised) && |s.log.raised| <= |s.log.received| + 1
    ensures |states[i].log.raised| > |states[i].log.received| ==> !Busy(states[i].slot)
  {
    RunInv(states, steps, i);
  }

  // Steps the worker still has to take before it is idle.
  function Work(s: State): nat {
    (if s.slot.pending.Some? then 2 else 0) + (if s.worker.Running? then 1 else 0)
  }

  function WorkerStep(s: State, result: Option<Error>): Step {
    if s.worker.Running? then JobDone(result) else WorkerPass
  }

  /** While a caller is parked, a job is waiting or a shutdown is unanswered, the worker itself can move. */
  lemma WorkerNeverStuck(states: seq<State>, steps: seq<Step>, i: nat, result: Option<Error>)
    requires Run(states, steps) && i < |states|
    requires Busy(states[i].slot) || states[i].parked != {} || (states[i].slot.shutdown && states[i].worker != Exited)
    ensures var s := states[i];
            && Enabled(s, WorkerStep(s, result))
            && (Busy(s.slot) ==> Work(Apply(s, WorkerStep(s, result))) < Work(s))
    ensures Busy(states[i].slot) <==> Work(states[i]) > 0
  {
    RunInv(states, steps, i);
  }

  /** A job pending when the shutdown arrives is still run before the worker exits. */
  lemma ShutdownDrains(states: seq<State>, steps: seq<Step>, i: nat, j: nat)
    requires Run(states, steps) && i < j < |states|
    requires states[i].slot.shutdown && states[j].worker == Exited
    ensures states[j].log.finished == states[i].log.accepted
  {
    RunInv(states, steps, j);
    ClosedAccepts(states, steps, i, j);
  }

  lemma {:induction false} ClosedAccepts(states: seq<State>, steps: seq<Step>, i: nat, j: nat)
    requires Run(states, steps) && i <= j < |states| && states[i].slot.shutdown
    ensures states[j].slot.shutdown && states[j].log.accepted == states[i].log.accepted
  {
    if i < j { ClosedAccepts(states, steps, i, j - 1); }
  }
}
