/** Commits, background checkpoints and one crash, over whole runs. */
module RecoveryRuns {
  import opened Bytes
  import opened WalFormat
  import opened WalCodec
  import opened Recovery
  import opened RecoveryLog
  import opened RecoveryExact
  import opened Wrappers

  /** The checkpoint in progress: captured, its snapshot renamed into place, its marker enqueued. */
  datatype Job<S> = NoJob | Captured(state: S, lsn: nat) | Renamed(lsn: nat) | Marked(lsn: nat, at: nat)

  /**
   * `closed` and `open` list the WAL records in enqueue order, by chunk; the first `synced` of them
   * are durable. `acked` is the highest LSN whose caller was answered. `behind`: the snapshot on disk
   * has no marker in the log, because its checkpoint is not that far or failed there.
   */
  datatype Db<S> = Db(
    commits: seq<Commit>,
    closed: seq<seq<Rec>>,
    open: seq<Rec>,
    synced: nat,
    acked: nat,
    snapshot: S,
    snapLsn: nat,
    behind: bool,
    job: Job<S>)

  datatype Step =
    | DoCommit(c: Commit)
    | DoSync(to: nat)
    | DoAck(lsn: nat)
    | DoCapture
    | DoGiveUp
    | DoRename
    | DoMark(ts: int, path: seq<byte>)
    | DoRotate

  function Log<S>(db: Db<S>): seq<Rec> {
    Concat(db.closed) + db.open
  }

  ghost predicate Start<S>(db: Db<S>, init: S) {
    db == Db([], [], [], 0, 0, init, 0, false, NoJob)
  }

  ghost predicate Enabled<S>(db: Db<S>, step: Step) {
    match step
    case DoCommit(c) => CommitOk(c) && Lsn(|db.commits| + 1)
    case DoSync(to) => db.synced <= to <= |Log(db)|
    case DoAck(lsn) =>
      db.synced <= |Log(db)| && AllV6(Log(db)[..db.synced]) && db.acked <= lsn <= CommitsIn(Log(db)[..db.synced])
    case DoCapture => db.job == NoJob
    case DoGiveUp => db.job.Captured? || db.job.Renamed? || (db.job.Marked? && db.job.at < db.synced <= |Log(db)|)
    case DoRename => db.job.Captured?
    case DoMark(ts, path) => db.job.Renamed? && Lsn(db.job.lsn) && Micros(ts) && |path| + 18 < V6_FLAG
    case DoRotate => db.job.Marked? && db.job.at < db.synced && |Concat(db.closed)| <= db.synced <= |Log(db)|
  }

  function Next<S>(apply: Apply<S>, init: S, scheme: byte, db: Db<S>, step: Step): Db<S>
    requires Enabled(db, step)
  {
    match step
    case DoCommit(c) =>
      db.(commits := db.commits + [c], open := db.open + [CommitRec(scheme, c, |db.commits| + 1)])
    case DoSync(to) => db.(synced := to)
    case DoAck(lsn) => db.(acked := lsn)
    case DoCapture => db.(job := Captured(StateAfter(apply, init, db.commits), |db.commits|))
    case DoGiveUp => db.(job := NoJob)
    case DoRename => db.(snapshot := db.job.state, snapLsn := db.job.lsn, behind := true, job := Renamed(db.job.lsn))
    case DoMark(ts, path) =>
      db.(open := db.open + [MarkerRec(scheme, db.job.lsn, ts, path)], behind := false,
          job := Marked(db.job.lsn, |Log(db)|))
    case DoRotate =>
      var k := db.synced - |Concat(db.closed)|;
      db.(closed := db.closed + [db.open[..k]], open := db.open[k..], job := NoJob)
  }

  // ---------------------------------------------------------------- invariant

  ghost predicate LogInv<S>(scheme: byte, db: Db<S>) {
    && SchemeOk(scheme) && AllV6Chunks(db.closed) && AllV6(db.open)
    && LogOk(scheme, db.commits, Log(db)) && Lsn(|db.commits|)
    && |Concat(db.closed)| <= db.synced <= |Log(db)|
    && AllV6(Log(db)[..db.synced]) && db.acked <= CommitsIn(Log(db)[..db.synced])
  }

  ghost predicate SnapInv<S>(apply: Apply<S>, init: S, db: Db<S>) {
    && db.snapLsn <= |db.commits| && db.snapshot == StateAfter(apply, init, db.commits[..db.snapLsn])
    && (db.job.Captured? ==> db.snapLsn <= db.job.lsn <= |db.commits|)
    && (db.job.Captured? ==> db.job.state == StateAfter(apply, init, db.commits[..db.job.lsn]))
    && (db.job.Renamed? || db.job.Marked? ==> db.job.lsn == db.snapLsn)
  }

  ghost predicate FloorMet<S>(db: Db<S>)
    requires db.synced <= |Log(db)| && AllV6(Log(db)) && AllV6(Log(db)[..db.synced])
  {
    if db.behind then FloorR(Log(db)) <= db.snapLsn else FloorR(Log(db)[..db.synced]) == FloorR(Log(db)) == db.snapLsn
  }

  /** The markers on disk against the snapshot on disk. */
  ghost predicate FloorInv<S>(db: Db<S>) {
    db.synced <= |Log(db)| && AllV6(Log(db)) && AllV6(Log(db)[..db.synced]) &&
    match db.job
    case NoJob => FloorMet(db)
    case Captured(_, _) => FloorMet(db)
    case Renamed(_) => db.behind && FloorR(Log(db)) <= db.snapLsn
    case Marked(lsn, at) =>
      !db.behind && at < |Log(db)| && IsMarker(Log(db)[at].typeByte) && Log(db)[at].lsn == db.snapLsn
      && FloorR(Log(db)) == db.snapLsn
  }

  lemma {:induction false} FloorPrefix(log: seq<Rec>, k: nat)
    requires AllV6(log) && k <= |log|
    ensures AllV6(log[..k]) && FloorR(log[..k]) <= FloorR(log)
    decreases |log|
  {
    if k == |log| {
      assert log[..k] == log;
    } else {
      assert log[..|log| - 1][..k] == log[..k];
      FloorPrefix(log[..|log| - 1], k);
    }
  }

  lemma {:induction false} FloorCovers(log: seq<Rec>, at: nat)
    requires AllV6(log) && at < |log| && IsMarker(log[at].typeByte)
    ensures FloorR(log) >= log[at].lsn
    decreases |log|
  {
    if at < |log| - 1 {
      FloorCovers(log[..|log| - 1], at);
    }
  }

  /** Whatever is kept beyond the synced records, the floor is the snapshot's LSN. */
  lemma FloorOfKept<S>(db: Db<S>, k: nat)
    requires FloorInv(db) && db.synced <= k <= |Log(db)|
    requires !db.behind && (db.job.Marked? ==> db.job.at < k)
    ensures AllV6(Log(db)[..k]) && FloorR(Log(db)[..k]) == db.snapLsn
  {
    FloorPrefix(Log(db), k);
    if db.job.Marked? {
      FloorCovers(Log(db)[..k], db.job.at);
    } else {
      FloorPrefix(Log(db)[..k], db.synced);
      assert Log(db)[..k][..db.synced] == Log(db)[..db.synced];
    }
  }

  lemma Grow(db: seq<Rec>, open: seq<Rec>, r: Rec, k: nat)
    requires k <= |db + open|
    ensures db + (open + [r]) == (db + open) + [r]
    ensures ((db + open) + [r])[..k] == (db + open)[..k]
    ensures ((db + open) + [r])[..|db + open|] == db + open
  {
  }

  lemma KeepsLogCommit<S>(apply: Apply<S>, init: S, scheme: byte, db: Db<S>, c: Commit)
    requires LogInv(scheme, db) && Enabled(db, DoCommit(c))
    ensures LogInv(scheme, Next(apply, init, scheme, db, DoCommit(c)))
  {
    var r := CommitRec(scheme, c, |db.commits| + 1);
    LogOkCommit(scheme, db.commits, Log(db), c);
    LogInvGrows(scheme, db, Next(apply, init, scheme, db, DoCommit(c)), r);
  }

  lemma LogOkCommit(scheme: byte, commits: seq<Commit>, log: seq<Rec>, c: Commit)
    requires LogOk(scheme, commits, log) && SchemeOk(scheme) && CommitOk(c) && Lsn(|commits| + 1)
    ensures Writable(CommitRec(scheme, c, |commits| + 1))
    ensures LogOk(scheme, commits + [c], log + [CommitRec(scheme, c, |commits| + 1)])
  {
    var r := CommitRec(scheme, c, |commits| + 1);
    assert (commits + [c])[..|commits|] == commits && (log + [r])[..|log|] == log;
  }

  lemma MarkerShape(scheme: byte, lsn: nat, ts: int, path: seq<byte>) returns (r: Rec)
    requires SchemeOk(scheme) && Lsn(lsn) && Micros(ts) && |path| + 18 < V6_FLAG
    ensures r == MarkerRec(scheme, lsn, ts, path)
    ensures r.V6? && Writable(r) && IsMarker(r.typeByte) && r.lsn == lsn
  {
    r := MarkerRec(scheme, lsn, ts, path);
  }

  lemma LogOkMark(scheme: byte, commits: seq<Commit>, log: seq<Rec>, r: Rec)
    requires LogOk(scheme, commits, log) && r.V6? && Writable(r) && IsMarker(r.typeByte) && r.lsn <= |commits|
    ensures LogOk(scheme, commits, log + [r])
  {
    assert (log + [r])[..|log|] == log;
  }

  // One more record, in the open chunk and the log alike.
  lemma LogInvGrows<S>(scheme: byte, db: Db<S>, db': Db<S>, r: Rec)
    requires LogInv(scheme, db) && r.V6? && Writable(r) && Lsn(|db'.commits|)
    requires db'.closed == db.closed && db'.open == db.open + [r] && db'.synced == db.synced && db'.acked == db.acked
    requires LogOk(scheme, db'.commits, Log(db) + [r])
    ensures LogInv(scheme, db')
  {
    Grow(Concat(db.closed), db.open, r, db.synced);
  }

  lemma KeepsLogMark<S>(apply: Apply<S>, init: S, scheme: byte, db: Db<S>, ts: int, path: seq<byte>)
    requires LogInv(scheme, db) && Enabled(db, DoMark(ts, path)) && db.job.lsn <= |db.commits|
    ensures LogInv(scheme, Next(apply, init, scheme, db, DoMark(ts, path)))
  {
    var r := MarkerShape(scheme, db.job.lsn, ts, path);
    LogOkMark(scheme, db.commits, Log(db), r);
    LogInvGrows(scheme, db, Next(apply, init, scheme, db, DoMark(ts, path)), r);
  }

  lemma RotateLog<S>(db: Db<S>, k: nat)
    requires k <= |db.open|
    ensures Concat(db.closed + [db.open[..k]]) + db.open[k..] == Log(db)
    ensures |Concat(db.closed + [db.open[..k]])| == |Concat(db.closed)| + k
  {
    assert (db.closed + [db.open[..k]])[..|db.closed|] == db.closed;
    assert db.open[..k] + db.open[k..] == db.open;
  }

  lemma KeepsLogSync<S>(apply: Apply<S>, init: S, scheme: byte, db: Db<S>, to: nat)
    requires LogInv(scheme, db) && Enabled(db, DoSync(to))
    ensures LogInv(scheme, Next(apply, init, scheme, db, DoSync(to)))
  {
    LogOkPrefix(scheme, db.commits, Log(db), to);
    CommitsGrow(Log(db)[..to], db.synced);
    assert Log(db)[..to][..db.synced] == Log(db)[..db.synced];
  }

  lemma SameLog<S>(scheme: byte, db: Db<S>, db': Db<S>)
    requires LogInv(scheme, db) && Log(db') == Log(db)
    requires db'.commits == db.commits && db'.synced == db.synced && db'.acked == db.acked
    requires AllV6Chunks(db'.closed) && AllV6(db'.open) && |Concat(db'.closed)| <= db'.synced
    ensures LogInv(scheme, db')
  {
  }

  lemma KeepsLogRotate<S>(apply: Apply<S>, init: S, scheme: byte, db: Db<S>)
    requires LogInv(scheme, db) && Enabled(db, DoRotate)
    ensures LogInv(scheme, Next(apply, init, scheme, db, DoRotate))
  {
    RotateLog(db, db.synced - |Concat(db.closed)|);
    SameLog(scheme, db, Next(apply, init, scheme, db, DoRotate));
  }

  lemma KeepsLogRest<S>(apply: Apply<S>, init: S, scheme: byte, db: Db<S>, step: Step)
    requires LogInv(scheme, db) && Enabled(db, step) && !step.DoCommit? && !step.DoMark?
    ensures LogInv(scheme, Next(apply, init, scheme, db, step))
  {
    match step
    case DoSync(to) => KeepsLogSync(apply, init, scheme, db, to);
    case DoRotate => KeepsLogRotate(apply, init, scheme, db);
    case _ =>
  }

  lemma {:induction false} CommitsGrow(log: seq<Rec>, k: nat)
    requires AllV6(log) && k <= |log|
    ensures AllV6(log[..k]) && CommitsIn(log[..k]) <= CommitsIn(log)
    decreases |log|
  {
    if k == |log| {
      assert log[..k] == log;
    } else {
      assert log[..|log| - 1][..k] == log[..k];
      CommitsGrow(log[..|log| - 1], k);
    }
  }

  lemma KeepsSnap<S>(apply: Apply<S>, init: S, scheme: byte, db: Db<S>, step: Step)
    requires SnapInv(apply, init, db) && Enabled(db, step)
    ensures SnapInv(apply, init, Next(apply, init, scheme, db, step))
  {
    if step.DoCommit? {
      var commits' := db.commits + [step.c];
      assert commits'[..db.snapLsn] == db.commits[..db.snapLsn];
      if db.job.Captured? {
        assert commits'[..db.job.lsn] == db.commits[..db.job.lsn];
      }
    }
    assert db.commits[..|db.commits|] == db.commits;
  }

  lemma KeepsFloorCommit<S>(apply: Apply<S>, init: S, scheme: byte, db: Db<S>, c: Commit)
    requires LogInv(scheme, db) && FloorInv(db) && Enabled(db, DoCommit(c))
    ensures FloorInv(Next(apply, init, scheme, db, DoCommit(c)))
  {
    KeepsLogCommit(apply, init, scheme, db, c);
    var r := CommitRec(scheme, c, |db.commits| + 1);
    Grow(Concat(db.closed), db.open, r, db.synced);
    AllV6Snoc(Log(db), r);
  }

  lemma KeepsFloorMark<S>(apply: Apply<S>, init: S, scheme: byte, db: Db<S>, ts: int, path: seq<byte>)
    requires LogInv(scheme, db) && SnapInv(apply, init, db) && FloorInv(db) && Enabled(db, DoMark(ts, path))
    ensures FloorInv(Next(apply, init, scheme, db, DoMark(ts, path)))
  {
    KeepsLogMark(apply, init, scheme, db, ts, path);
    var r := MarkerRec(scheme, db.job.lsn, ts, path);
    Grow(Concat(db.closed), db.open, r, db.synced);
    AllV6Snoc(Log(db), r);
  }

  lemma AllV6Snoc(log: seq<Rec>, r: Rec)
    requires AllV6(log) && r.V6? && Writable(r)
    ensures AllV6(log + [r])
    ensures FloorR(log + [r]) == if IsMarker(r.typeByte) then MaxLsn(FloorR(log), r.lsn) else FloorR(log)
  {
    assert (log + [r])[..|log|] == log;
  }

  lemma KeepsFloorRest<S>(apply: Apply<S>, init: S, scheme: byte, db: Db<S>, step: Step)
    requires LogInv(scheme, db) && SnapInv(apply, init, db) && FloorInv(db) && Enabled(db, step)
    requires !step.DoCommit? && !step.DoMark?
    ensures FloorInv(Next(apply, init, scheme, db, step))
  {
    match step
    case DoSync(to) =>
      FloorPrefix(Log(db), to);
      FloorPrefix(Log(db)[..to], db.synced);
      assert Log(db)[..to][..db.synced] == Log(db)[..db.synced];
    case DoRotate =>
      RotateLog(db, db.synced - |Concat(db.closed)|);
      FloorOfKept(db, db.synced);
    case DoGiveUp =>
      if db.job.Marked? { FloorOfKept(db, db.synced); }
    case _ =>
  }

  ghost predicate Inv<S>(apply: Apply<S>, init: S, scheme: byte, db: Db<S>) {
    LogInv(scheme, db) && SnapInv(apply, init, db) && FloorInv(db)
  }

  lemma KeepsInv<S>(apply: Apply<S>, init: S, scheme: byte, db: Db<S>, step: Step)
    requires Inv(apply, init, scheme, db) && Enabled(db, step)
    ensures Inv(apply, init, scheme, Next(apply, init, scheme, db, step))
  {
    KeepsSnap(apply, init, scheme, db, step);
    match step
    case DoCommit(c) =>
      KeepsLogCommit(apply, init, scheme, db, c);
      KeepsFloorCommit(apply, init, scheme, db, c);
    case DoMark(ts, path) =>
      KeepsLogMark(apply, init, scheme, db, ts, path);
      KeepsFloorMark(apply, init, scheme, db, ts, path);
    case _ =>
      KeepsLogRest(apply, init, scheme, db, step);
      KeepsFloorRest(apply, init, scheme, db, step);
  }

  // ---------------------------------------------------------------- runs

  ghost predicate Run<S(!new)>(apply: Apply<S>, init: S, scheme: byte, states: seq<Db<S>>, steps: seq<Step>) {
    && SchemeOk(scheme) && |states| == |steps| + 1 && Start(states[0], init)
    && forall i :: 0 <= i < |steps| ==>
         Enabled(states[i], steps[i]) && states[i + 1] == Next(apply, init, scheme, states[i], steps[i])
  }

  lemma {:induction false} RunInv<S(!new)>(
      apply: Apply<S>, init: S, scheme: byte, states: seq<Db<S>>, steps: seq<Step>, i: nat)
    requires Run(apply, init, scheme, states, steps) && i <= |steps|
    ensures Inv(apply, init, scheme, states[i])
    decreases i
  {
    if i > 0 {
      RunInv(apply, init, scheme, states, steps, i - 1);
      KeepsInv(apply, init, scheme, states[i - 1], steps[i - 1]);
    }
  }

  /** A crash keeps at least the synced records, and cuts the open chunk after `n` bytes. */
  ghost predicate Crash<S>(s: Sums, db: Db<S>, n: nat) {
    AllV6Chunks(db.closed) && AllV6(db.open) && n <= |EncodeAll(s, db.open)| &&
    db.synced <= |Survivors(s, db.closed, db.open, n)|
  }

  /** The marker of the snapshot on disk is among the kept records. */
  ghost predicate MarkerKept<S>(s: Sums, db: Db<S>, n: nat)
    requires AllV6(db.open)
  {
    !db.behind && (db.job.Marked? ==> db.job.at < |Survivors(s, db.closed, db.open, n)|)
  }

  lemma SurvivorsPrefix<S>(s: Sums, db: Db<S>, n: nat)
    requires AllV6(db.open)
    ensures var kept := Survivors(s, db.closed, db.open, n);
      |kept| <= |Log(db)| && kept == Log(db)[..|kept|]
  {
    InsideMatches(db.open, n, 0);
  }

  /** Boot after this crash yields the state after the first `m` commits. */
  ghost predicate BootsTo<S>(s: Sums, apply: Apply<S>, init: S, db: Db<S>, n: nat, m: nat) {
    && AllV6Chunks(db.closed) && AllV6(db.open) && n <= |EncodeAll(s, db.open)| && m <= |db.commits|
    && Boots(s, apply, db.snapshot, Image(s, db.closed, db.open, n)) == Recovered(StateAfter(apply, init, db.commits[..m]))
  }

  /** The floor and the number of commits recovery finds. */
  ghost function KeptFloor<S>(s: Sums, db: Db<S>, n: nat): nat
    requires AllV6(db.open) && AllV6(Survivors(s, db.closed, db.open, n))
  {
    FloorR(Survivors(s, db.closed, db.open, n))
  }

  ghost function KeptCommits<S>(s: Sums, db: Db<S>, n: nat): nat
    requires AllV6(db.open) && AllV6(Survivors(s, db.closed, db.open, n))
  {
    CommitsIn(Survivors(s, db.closed, db.open, n))
  }

  lemma CrashFloor<S>(s: Sums, apply: Apply<S>, init: S, scheme: byte, db: Db<S>, n: nat)
    requires Inv(apply, init, scheme, db) && Crash(s, db, n)
    ensures AllV6(Survivors(s, db.closed, db.open, n))
    ensures KeptFloor(s, db, n) <= db.snapLsn
    ensures MarkerKept(s, db, n) ==> KeptFloor(s, db, n) == db.snapLsn
  {
    var k := |Survivors(s, db.closed, db.open, n)|;
    SurvivorsPrefix(s, db, n);
    FloorPrefix(Log(db), k);
    if MarkerKept(s, db, n) {
      FloorOfKept(db, k);
    }
  }

  // The commits in a prefix of the log that reaches past the synced records.
  lemma KeptPrefix(scheme: byte, commits: seq<Commit>, log: seq<Rec>, kept: seq<Rec>, synced: nat)
    requires LogOk(scheme, commits, log) && synced <= |kept| <= |log| && kept == log[..|kept|]
    ensures AllV6(kept) && AllV6(log[..synced])
    ensures CommitsIn(log[..synced]) <= CommitsIn(kept) <= |commits|
    ensures LogOk(scheme, commits[..CommitsIn(kept)], kept)
  {
    LogOkPrefix(scheme, commits, log, |kept|);
    CommitsGrow(kept, synced);
    assert kept[..synced] == log[..synced];
  }

  lemma CrashCommits<S>(s: Sums, apply: Apply<S>, init: S, scheme: byte, db: Db<S>, n: nat)
    requires Inv(apply, init, scheme, db) && Crash(s, db, n)
    ensures AllV6(Survivors(s, db.closed, db.open, n))
    ensures db.acked <= KeptCommits(s, db, n) <= |db.commits|
    ensures LogOk(scheme, db.commits[..KeptCommits(s, db, n)], Survivors(s, db.closed, db.open, n))
  {
    var kept := Survivors(s, db.closed, db.open, n);
    SurvivorsPrefix(s, db, n);
    KeptPrefix(scheme, db.commits, Log(db), kept, db.synced);
  }

  /** Any crash, inside the window or not: the commits above the floor land on the snapshot. */
  lemma CrashReplays<S>(s: Sums, apply: Apply<S>, init: S, scheme: byte, db: Db<S>, n: nat)
    requires Inv(apply, init, scheme, db) && Crash(s, db, n)
    ensures AllV6(Survivors(s, db.closed, db.open, n))
    ensures KeptFloor(s, db, n) <= db.snapLsn && db.acked <= KeptCommits(s, db, n) <= |db.commits|
    ensures MarkerKept(s, db, n) ==> KeptFloor(s, db, n) == db.snapLsn
    ensures Boots(s, apply, db.snapshot, Image(s, db.closed, db.open, n))
         == Recovered(ApplyAbove(apply, db.snapshot, db.commits[..KeptCommits(s, db, n)], KeptFloor(s, db, n)))
  {
    var kept := Survivors(s, db.closed, db.open, n);
    CrashFloor(s, apply, init, scheme, db, n);
    CrashCommits(s, apply, init, scheme, db, n);
    BootsFromImage(s, apply, db.snapshot, db.closed, db.open, n);
    ReplayIsApplyAbove(apply, db.snapshot, scheme, db.commits[..CommitsIn(kept)], kept, FloorR(kept));
  }

  lemma InvRecovers<S>(s: Sums, apply: Apply<S>, init: S, scheme: byte, db: Db<S>, n: nat) returns (m: nat)
    requires Inv(apply, init, scheme, db) && Crash(s, db, n)
    requires AllV6(Survivors(s, db.closed, db.open, n)) && KeptFloor(s, db, n) == db.snapLsn
    ensures db.acked <= m && BootsTo(s, apply, init, db, n, m)
  {
    CrashReplays(s, apply, init, scheme, db, n);
    m := MaxLsn(db.snapLsn, KeptCommits(s, db, n));
    ApplyAboveSnapshot(apply, init, db.commits, db.snapLsn, KeptCommits(s, db, n));
  }

  /**
   * For every run and every crash that keeps the snapshot's marker, recovery is the state after the
   * first `m` commits for some `m` that covers every answered one: nothing lost, repeated or reordered.
   */
  lemma RecoveryIsExact<S(!new)>(
      s: Sums, apply: Apply<S>, init: S, scheme: byte, states: seq<Db<S>>, steps: seq<Step>, i: nat, n: nat)
    requires Run(apply, init, scheme, states, steps) && i <= |steps|
    requires Crash(s, states[i], n) && MarkerKept(s, states[i], n)
    ensures exists m :: states[i].acked <= m && BootsTo(s, apply, init, states[i], n, m)
  {
    RunInv(apply, init, scheme, states, steps, i);
    CrashReplays(s, apply, init, scheme, states[i], n);
    var m := InvRecovers(s, apply, init, scheme, states[i], n);
  }

  // ---------------------------------------------------------------- the rename-to-marker window

  /** The engine that remembers everything applied to it. */
  function Recorder(): Apply<seq<(byte, seq<byte>)>> {
    (st: seq<(byte, seq<byte>)>, kind: byte, payload: seq<byte>) => st + [(kind, payload)]
  }

  function History(commits: seq<Commit>): (h: seq<(byte, seq<byte>)>)
    ensures |h| == |commits| && forall i :: 0 <= i < |h| ==> h[i] == (commits[i].kind, commits[i].payload)
  {
    if commits == [] then []
    else History(commits[..|commits| - 1]) + [(commits[|commits| - 1].kind, commits[|commits| - 1].payload)]
  }

  lemma {:induction false} RecorderState(commits: seq<Commit>)
    ensures StateAfter(Recorder(), [], commits) == History(commits)
  {
    if commits != [] {
      RecorderState(commits[..|commits| - 1]);
    }
  }

  lemma {:induction false} RecorderAbove(st: seq<(byte, seq<byte>)>, commits: seq<Commit>, floor: nat)
    requires floor <= |commits|
    ensures ApplyAbove(Recorder(), st, commits, floor) == st + History(commits)[floor..]
    decreases |commits|
  {
    if |commits| > floor {
      RecorderAbove(st, commits[..|commits| - 1], floor);
      assert History(commits)[floor..] == History(commits[..|commits| - 1])[floor..] + [History(commits)[|commits| - 1]];
    } else {
      assert History(commits)[floor..] == [];
    }
  }

  ghost predicate Distinct(commits: seq<Commit>) {
    forall i, j :: 0 <= i < j < |commits| ==> (commits[i].kind, commits[i].payload) != (commits[j].kind, commits[j].payload)
  }

  lemma DoubledHistory(all: seq<Commit>, floor: nat, snap: nat, here: nat, m: nat)
    requires Distinct(all) && floor < snap <= |all| && floor < here <= |all| && m <= |all|
    ensures History(all[..snap]) + History(all[..here])[floor..] != History(all[..m])
  {
    var doubled := History(all[..snap]) + History(all[..here])[floor..];
    assert doubled[snap] == (all[floor].kind, all[floor].payload);
    assert m > snap ==> History(all[..m])[snap] == (all[snap].kind, all[snap].payload);
  }

  lemma WindowDoubles(s: Sums, scheme: byte, db: Db<seq<(byte, seq<byte>)>>, n: nat, m: nat)
    requires Inv(Recorder(), [], scheme, db) && Crash(s, db, n) && Distinct(db.commits)
    requires AllV6(Survivors(s, db.closed, db.open, n))
    requires KeptFloor(s, db, n) < db.snapLsn && KeptFloor(s, db, n) < KeptCommits(s, db, n)
    ensures !BootsTo(s, Recorder(), [], db, n, m)
  {
    CrashReplays(s, Recorder(), [], scheme, db, n);
    var here, floor := KeptCommits(s, db, n), KeptFloor(s, db, n);
    RecorderState(db.commits[..db.snapLsn]);
    RecorderAbove(db.snapshot, db.commits[..here], floor);
    if m <= |db.commits| {
      RecorderState(db.commits[..m]);
      DoubledHistory(db.commits, floor, db.snapLsn, here, m);
    }
  }

  /**
   * Between the snapshot rename and its durable marker the floor is older than the snapshot. For an
   * engine that keeps every effect apart, recovery is then a committed prefix exactly when the floor
   * equals the snapshot's LSN or nothing above the floor was kept.
   */
  lemma WindowExactly(s: Sums, scheme: byte, db: Db<seq<(byte, seq<byte>)>>, n: nat)
    requires Inv(Recorder(), [], scheme, db) && Crash(s, db, n) && Distinct(db.commits)
    ensures AllV6(Survivors(s, db.closed, db.open, n))
    ensures (exists m :: BootsTo(s, Recorder(), [], db, n, m))
       <==> KeptFloor(s, db, n) == db.snapLsn || KeptCommits(s, db, n) <= KeptFloor(s, db, n)
  {
    CrashReplays(s, Recorder(), [], scheme, db, n);
    if KeptFloor(s, db, n) == db.snapLsn {
      var m := InvRecovers(s, Recorder(), [], scheme, db, n);
    } else if KeptCommits(s, db, n) <= KeptFloor(s, db, n) {
      assert BootsTo(s, Recorder(), [], db, n, db.snapLsn);
    } else {
      forall m ensures !BootsTo(s, Recorder(), [], db, n, m) {
        WindowDoubles(s, scheme, db, n, m);
      }
    }
  }

  /** Four steps, then a crash that loses nothing: the commit is in the snapshot and is replayed on top. */
  lemma WindowReachable(s: Sums, scheme: byte, c: Commit)
    returns (states: seq<Db<seq<(byte, seq<byte>)>>>, steps: seq<Step>, n: nat)
    requires SchemeOk(scheme) && CommitOk(c)
    ensures steps == [DoCommit(c), DoSync(1), DoCapture, DoRename]
    ensures Run(Recorder(), [], scheme, states, steps) && Crash(s, states[4], n)
    ensures forall m :: !BootsTo(s, Recorder(), [], states[4], n, m)
  {
    var r := CommitRec(scheme, c, 1);
    var seen := StateAfter(Recorder(), [], [c]);
    steps := [DoCommit(c), DoSync(1), DoCapture, DoRename];
    states := [
      Db([], [], [], 0, 0, [], 0, false, NoJob),
      Db([c], [], [r], 0, 0, [], 0, false, NoJob),
      Db([c], [], [r], 1, 0, [], 0, false, NoJob),
      Db([c], [], [r], 1, 0, [], 0, false, Captured(seen, 1)),
      Db([c], [], [r], 1, 0, seen, 1, true, Renamed(1))];
    WindowRun(scheme, states, steps, c);
    n := WindowCrash(s, states[4], r);
    RunInv(Recorder(), [], scheme, states, steps, 4);
    WindowExactly(s, scheme, states[4], n);
  }

  lemma WindowRun(scheme: byte, states: seq<Db<seq<(byte, seq<byte>)>>>, steps: seq<Step>, c: Commit)
    requires SchemeOk(scheme) && CommitOk(c) && steps == [DoCommit(c), DoSync(1), DoCapture, DoRename]
    requires var r, seen := CommitRec(scheme, c, 1), StateAfter(Recorder(), [], [c]);
      states == [
        Db([], [], [], 0, 0, [], 0, false, NoJob),
        Db([c], [], [r], 0, 0, [], 0, false, NoJob),
        Db([c], [], [r], 1, 0, [], 0, false, NoJob),
        Db([c], [], [r], 1, 0, [], 0, false, Captured(seen, 1)),
        Db([c], [], [r], 1, 0, seen, 1, true, Renamed(1))]
    ensures Run(Recorder(), [], scheme, states, steps)
  {
    assert Lsn(1) by { FieldWidths(); }
    assert Log(states[1]) == [CommitRec(scheme, c, 1)];
    assert [] + [c] == [c] && [] + [CommitRec(scheme, c, 1)] == [CommitRec(scheme, c, 1)];
  }

  lemma WindowCrash<S>(s: Sums, db: Db<S>, r: Rec) returns (n: nat)
    requires db.closed == [] && db.open == [r] && db.synced == 1 && r.V6? && Writable(r) && !IsMarker(r.typeByte)
    ensures Crash(s, db, n) && AllV6(Survivors(s, db.closed, db.open, n))
    ensures KeptFloor(s, db, n) == 0 && KeptCommits(s, db, n) == 1
  {
    n := |EncodeAll(s, [r])|;
    KeptAll(s, [r]);
    OneSurvives(s, db, n, r);
    OneCommit(r);
  }

  lemma OneSurvives<S>(s: Sums, db: Db<S>, n: nat, r: Rec)
    requires db.closed == [] && db.open == [r] && AllV6([r]) && Kept([r], n) == 1
    ensures Survivors(s, db.closed, db.open, n) == [r]
  {
    assert [] + [r][..1] == [r];
  }

  lemma OneCommit(r: Rec)
    requires r.V6? && Writable(r) && !IsMarker(r.typeByte)
    ensures AllV6([r]) && FloorR([r]) == 0 && CommitsIn([r]) == 1
  {
    assert [r][..0] == [];
  }

  // ---------------------------------------------------------------- engines that absorb a second replay

  /** Replaying commits that a state already holds, from any floor on, changes nothing. */
  ghost predicate Absorbs<S(!new)>(apply: Apply<S>, init: S) {
    forall all: seq<Commit>, floor: nat, here: nat :: floor <= here <= |all| ==>
      ApplyAbove(apply, StateAfter(apply, init, all), all[..here], floor) == StateAfter(apply, init, all)
  }

  lemma {:induction false} ApplyInTwo<S>(apply: Apply<S>, st: S, all: seq<Commit>, floor: nat, mid: nat, here: nat)
    requires floor <= mid <= here <= |all|
    ensures ApplyAbove(apply, st, all[..here], floor)
         == ApplyAbove(apply, ApplyAbove(apply, st, all[..mid], floor), all[..here], mid)
    decreases here
  {
    if here > mid {
      assert all[..here][..here - 1] == all[..here - 1];
      ApplyInTwo(apply, st, all, floor, mid, here - 1);
    }
  }

  lemma AbsorbedReplay<S(!new)>(apply: Apply<S>, init: S, all: seq<Commit>, floor: nat, snap: nat, here: nat)
    requires Absorbs(apply, init) && floor <= snap <= |all| && here <= |all|
    ensures ApplyAbove(apply, StateAfter(apply, init, all[..snap]), all[..here], floor)
         == StateAfter(apply, init, all[..MaxLsn(snap, here)])
  {
    if floor <= here <= snap {
      assert all[..snap][..here] == all[..here];
    } else if snap < here {
      ApplyInTwo(apply, StateAfter(apply, init, all[..snap]), all, floor, snap, here);
      assert all[..snap][..snap] == all[..snap];
      ApplyAboveSnapshot(apply, init, all, snap, here);
    }
  }

  /** Such an engine recovers exactly from every crash, in the rename-to-marker window too. */
  lemma AbsorbingIsExact<S(!new)>(
      s: Sums, apply: Apply<S>, init: S, scheme: byte, states: seq<Db<S>>, steps: seq<Step>, i: nat, n: nat)
    requires Run(apply, init, scheme, states, steps) && i <= |steps| && Crash(s, states[i], n)
    requires Absorbs(apply, init)
    ensures AllV6(Survivors(s, states[i].closed, states[i].open, n))
    ensures states[i].acked <= KeptCommits(s, states[i], n)
    ensures BootsTo(s, apply, init, states[i], n, MaxLsn(states[i].snapLsn, KeptCommits(s, states[i], n)))
  {
    var db := states[i];
    RunInv(apply, init, scheme, states, steps, i);
    CrashReplays(s, apply, init, scheme, db, n);
    AbsorbedReplay(apply, init, db.commits, KeptFloor(s, db, n), db.snapLsn, KeptCommits(s, db, n));
  }

  /** An engine that only ever adds what it is given. */
  function Collector(): Apply<set<(byte, seq<byte>)>> {
    (st: set<(byte, seq<byte>)>, kind: byte, payload: seq<byte>) => st + {(kind, payload)}
  }

  function Seen(commits: seq<Commit>): set<(byte, seq<byte>)> {
    set c | c in commits :: (c.kind, c.payload)
  }

  lemma {:induction false} CollectorState(commits: seq<Commit>)
    ensures StateAfter(Collector(), {}, commits) == Seen(commits)
  {
    if commits != [] {
      var front := commits[..|commits| - 1];
      CollectorState(front);
      assert commits == front + [commits[|commits| - 1]];
    }
  }

  lemma {:induction false} CollectorAbove(st: set<(byte, seq<byte>)>, commits: seq<Commit>, floor: nat)
    requires Seen(commits) <= st
    ensures ApplyAbove(Collector(), st, commits, floor) == st
    decreases |commits|
  {
    if |commits| > floor {
      var last := commits[|commits| - 1];
      assert (last.kind, last.payload) in Seen(commits);
      assert Seen(commits[..|commits| - 1]) <= Seen(commits);
      CollectorAbove(st, commits[..|commits| - 1], floor);
    }
  }

  lemma CollectorAbsorbs()
    ensures Absorbs(Collector(), {})
  {
    forall all: seq<Commit>, floor: nat, here: nat | floor <= here <= |all|
      ensures ApplyAbove(Collector(), StateAfter(Collector(), {}, all), all[..here], floor) == StateAfter(Collector(), {}, all)
    {
      CollectorState(all);
      CollectorAbove(Seen(all), all[..here], floor);
    }
  }
}
