/** Leader-follower WAL group commit as a transition system over its critical sections. */
module GroupCommit {
  import opened Bytes
  import opened Wrappers

  type Tid = nat

  // ---------------------------------------------------------------- the mutex-guarded fields

  /** `WalGroupState`. */
  datatype Core = Core(buf: seq<byte>, enqueued: nat, flushed: nat, leaderActive: bool, failed: bool)

  function Enqueued(c: Core, record: seq<byte>): Core {
    c.(buf := c.buf + record, enqueued := c.enqueued + 1)
  }

  function Elected(c: Core): Core {
    c.(leaderActive := true)
  }

  /** `mem::take(&mut buf)`, by a leader or by `flush_now`. */
  function Drained(c: Core): Core {
    c.(buf := [])
  }

  function Abandoned(c: Core): Core {
    c.(leaderActive := false)
  }

  /** The end of an I/O window: only a leader owns the `leader_active` flag. */
  function Published(c: Core, leader: bool, flushTo: nat, ok: bool): Core {
    var c' := if leader then c.(leaderActive := false) else c;
    if ok then c'.(flushed := flushTo) else c'.(failed := true)
  }

  datatype Verdict = Poisoned | Durable | Lead | Follow

  /** One pass of the loop in `wait_flushed`, in the order the code tests. */
  function Judge(c: Core, ticket: nat): Verdict {
    if c.failed then Poisoned
    else if c.flushed >= ticket then Durable
    else if !c.leaderActive then Lead
    else Follow
  }

  class WalGroupState {
    var buf: seq<byte>
    var enqueuedSeq: nat
    var flushedSeq: nat
    var leaderActive: bool
    var failed: bool

    function Abs(): Core
      reads this
    {
      Core(buf, enqueuedSeq, flushedSeq, leaderActive, failed)
    }

    constructor ()
      ensures Abs() == Core([], 0, 0, false, false)
    {
      buf, enqueuedSeq, flushedSeq, leaderActive, failed := [], 0, 0, false, false;
    }

    method Enqueue(record: seq<byte>) returns (ticket: nat)
      modifies this
      ensures Abs() == Enqueued(old(Abs()), record)
      ensures ticket == enqueuedSeq
    {
      buf := buf + record;
      enqueuedSeq := enqueuedSeq + 1;
      ticket := enqueuedSeq;
    }

    method Check(ticket: nat) returns (v: Verdict)
      modifies this
      ensures v == Judge(old(Abs()), ticket)
      ensures Abs() == if v == Lead then Elected(old(Abs())) else old(Abs())
    {
      if failed {
        return Poisoned;
      }
      if flushedSeq >= ticket {
        return Durable;
      }
      if !leaderActive {
        leaderActive := true;
        return Lead;
      }
      return Follow;
    }

    method TakeBatch() returns (batch: seq<byte>, flushTo: nat)
      modifies this
      ensures Abs() == Drained(old(Abs()))
      ensures batch == old(buf) && flushTo == enqueuedSeq
    {
      batch, flushTo := buf, enqueuedSeq;
      buf := [];
    }

    method DropGuard()
      modifies this
      ensures Abs() == Abandoned(old(Abs()))
    {
      leaderActive := false;
    }

    method Publish(leader: bool, flushTo: nat, ok: bool)
      modifies this
      ensures Abs() == Published(old(Abs()), leader, flushTo, ok)
    {
      if leader {
        leaderActive := false;
      }
      if ok {
        flushedSeq := flushTo;
      } else {
        failed := true;
      }
    }
  }

  // ---------------------------------------------------------------- threads, files and locks

  datatype Role = Leader(ticket: nat) | Flusher

  /** Before the `file` lock, holding it with `done` bytes written, or after releasing it. */
  datatype Stage = Queued | Writing(done: nat) | Finished(ok: bool)

  datatype Pc =
    | Idle
    | Waiting(ticket: nat)
    | Parked(ticket: nat)
    | Leading(ticket: nat)
    | Notifying
    | Io(role: Role, batch: seq<byte>, flushTo: nat, stage: Stage)
    | Swapping
    | Returned(ticket: nat, ok: bool)
    | Flushed(ok: bool)

  /**
   * `log` is every record ever enqueued, `chunks` the chunk files with the active one last, `synced`
   * how many of their bytes are durable, `acked` the highest ticket answered Ok.
   */
  datatype State = State(
    core: Core,
    log: seq<seq<byte>>,
    chunks: seq<seq<byte>>,
    synced: nat,
    stateHeld: Option<Tid>,
    fileHeld: Option<Tid>,
    pc: map<Tid, Pc>,
    acked: nat)

  function Flat(parts: seq<seq<byte>>): seq<byte> {
    if parts == [] then [] else Flat(parts[..|parts| - 1]) + parts[|parts| - 1]
  }

  function Written(s: State): seq<byte> {
    Flat(s.chunks)
  }

  function AppendToActive(chunks: seq<seq<byte>>, bytes: seq<byte>): seq<seq<byte>>
    requires chunks != []
  {
    chunks[..|chunks| - 1] + [chunks[|chunks| - 1] + bytes]
  }

  function WakeAll(pc: map<Tid, Pc>): map<Tid, Pc> {
    map t | t in pc :: if pc[t].Parked? then Waiting(pc[t].ticket) else pc[t]
  }

  datatype Step =
    | Enqueue(t: Tid, record: seq<byte>)
    | EnqueueMarker(t: Tid, record: seq<byte>)
    | CheckPoisoned(t: Tid)
    | CheckDurable(t: Tid)
    | Elect(t: Tid)
    | Park(t: Tid)
    | Spurious(t: Tid)
    | Panic(t: Tid)
    | NotifyAfterPanic(t: Tid)
    | Take(t: Tid)
    | FlushPoisoned(t: Tid)
    | FlushEmpty(t: Tid)
    | FlushTake(t: Tid)
    | LockFile(t: Tid)
    | Write(t: Tid, bytes: nat)
    | Sync(t: Tid)
    | Fail(t: Tid)
    | Publish(t: Tid)
    | RotateLock(t: Tid)
    | RotateSwap(t: Tid)
    | Leave(t: Tid)

  predicate Enabled(s: State, step: Step) {
    step.t in s.pc &&
    var pc := s.pc[step.t];
    var free := s.stateHeld == None;
    match step
    case Enqueue(_, _) => pc == Idle && free
    case EnqueueMarker(_, _) => pc == Idle && free
    case CheckPoisoned(_) => pc.Waiting? && free && Judge(s.core, pc.ticket) == Poisoned
    case CheckDurable(_) => pc.Waiting? && free && Judge(s.core, pc.ticket) == Durable
    case Elect(_) => pc.Waiting? && free && Judge(s.core, pc.ticket) == Lead
    case Park(_) => pc.Waiting? && free && Judge(s.core, pc.ticket) == Follow
    case Spurious(_) => pc.Parked?
    case Panic(_) => pc.Leading? && free
    case NotifyAfterPanic(_) => pc == Notifying
    case Take(_) => pc.Leading? && free
    case FlushPoisoned(_) => pc == Idle && free && s.core.failed
    case FlushEmpty(_) => pc == Idle && free && !s.core.failed && s.core.buf == []
    case FlushTake(_) => pc == Idle && free && !s.core.failed && s.core.buf != []
    case LockFile(_) => pc.Io? && pc.stage == Queued && s.fileHeld == None
    case Write(_, n) => pc.Io? && pc.stage.Writing? && 0 < n && pc.stage.done + n <= |pc.batch| && s.chunks != []
    case Sync(_) => pc.Io? && pc.stage == Writing(|pc.batch|)
    case Fail(_) => pc.Io? && pc.stage.Writing?
    case Publish(_) => pc.Io? && pc.stage.Finished? && free
    case RotateLock(_) => pc == Idle && free
    case RotateSwap(_) => pc == Swapping && s.fileHeld == None
    case Leave(_) => pc.Returned? || pc.Flushed?
  }

  function Max(a: nat, b: nat): nat {
    if a < b then b else a
  }

  function Apply(s: State, step: Step): State
    requires Enabled(s, step)
  {
    var t := step.t;
    var pc := s.pc[t];
    match step
    case Enqueue(_, record) =>
      s.(core := Enqueued(s.core, record), log := s.log + [record], pc := s.pc[t := Waiting(s.core.enqueued + 1)])
    case EnqueueMarker(_, record) =>
      s.(core := Enqueued(s.core, record), log := s.log + [record])
    case CheckPoisoned(_) =>
      s.(pc := s.pc[t := Returned(pc.ticket, false)])
    case CheckDurable(_) =>
      s.(pc := s.pc[t := Returned(pc.ticket, true)], acked := Max(s.acked, pc.ticket))
    case Elect(_) =>
      s.(core := Elected(s.core), pc := s.pc[t := Leading(pc.ticket)])
    case Park(_) =>
      s.(pc := s.pc[t := Parked(pc.ticket)])
    case Spurious(_) =>
      s.(pc := s.pc[t := Waiting(pc.ticket)])
    case Panic(_) =>
      s.(core := Abandoned(s.core), pc := s.pc[t := Notifying])
    case NotifyAfterPanic(_) =>
      s.(pc := WakeAll(s.pc)[t := Idle])
    case Take(_) =>
      s.(core := Drained(s.core), pc := s.pc[t := Io(Leader(pc.ticket), s.core.buf, s.core.enqueued, Queued)])
    case FlushPoisoned(_) =>
      s.(pc := s.pc[t := Flushed(false)])
    case FlushEmpty(_) =>
      s.(pc := s.pc[t := Flushed(true)])
    case FlushTake(_) =>
      s.(core := Drained(s.core), pc := s.pc[t := Io(Flusher, s.core.buf, s.core.enqueued, Queued)])
    case LockFile(_) =>
      s.(fileHeld := Some(t), pc := s.pc[t := pc.(stage := Writing(0))])
    case Write(_, n) =>
      var done := pc.stage.done;
      s.(chunks := AppendToActive(s.chunks, pc.batch[done..done + n]), pc := s.pc[t := pc.(stage := Writing(done + n))])
    case Sync(_) =>
      s.(synced := |Written(s)|, fileHeld := None, pc := s.pc[t := pc.(stage := Finished(true))])
    case Fail(_) =>
      s.(fileHeld := None, pc := s.pc[t := pc.(stage := Finished(false))])
    case Publish(_) =>
      var next := if pc.role.Leader? then Waiting(pc.role.ticket) else Flushed(pc.stage.ok);
      s.(core := Published(s.core, pc.role.Leader?, pc.flushTo, pc.stage.ok), pc := WakeAll(s.pc)[t := next])
    case RotateLock(_) =>
      s.(stateHeld := Some(t), pc := s.pc[t := Swapping])
    case RotateSwap(_) =>
      s.(chunks := s.chunks + [[]], stateHeld := None, pc := s.pc[t := Idle])
    case Leave(_) =>
      s.(pc := s.pc[t := Idle])
  }
}
