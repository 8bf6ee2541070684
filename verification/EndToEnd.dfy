/**
 * Group commit under recovery: the byte-level flush protocol takes the log of
 * records through its syncs, acknowledgements and rotations, so an answered
 * commit survives a crash of the bytes.
 */
module EndToEnd {
  import opened Bytes
  import opened WalFormat
  import opened WalCodec
  import opened Recovery
  import opened RecoveryLog
  import opened RecoveryExact
  import G = GroupCommit
  import Safety = GroupCommitSafety
  import Runs = GroupCommitRuns
  import R = RecoveryRuns
  import opened Wrappers

  // ---------------------------------------------------------------- records inside a byte prefix

  lemma KeptStep(rs: seq<Rec>, n: nat)
    requires rs != []
    ensures Kept(rs, n) == if Size(rs[0]) <= n then 1 + Kept(rs[1..], n - Size(rs[0])) else 0
  {
    var k := Size(rs[0]);
    InsideStep(rs, n, 0, k, rs[1..]);
    if k <= n { InsideLength(rs[1..], n - k, k, 0); }
  }

  lemma {:induction false} KeptMore(rs: seq<Rec>, n: nat, m: nat)
    requires n <= m
    ensures Kept(rs, n) <= Kept(rs, m) <= |rs|
    decreases |rs|
  {
    if rs != [] {
      KeptStep(rs, n);
      KeptStep(rs, m);
      var k := Size(rs[0]);
      if k <= m {
        KeptMore(rs[1..], if k <= n then n - k else 0, m - k);
      }
    }
  }

  lemma PrefixSize(s: Sums, rs: seq<Rec>, k: nat)
    requires AllWritable(rs) && 0 < k <= |rs|
    ensures AllWritable(rs[1..]) && |EncodeAll(s, rs[..k])| == Size(rs[0]) + |EncodeAll(s, rs[1..][..k - 1])|
  {
    SizeIs(s, rs[0]);
    assert rs[..k][1..] == rs[1..][..k - 1];
  }

  lemma {:induction false} KeptCovers(s: Sums, rs: seq<Rec>, k: nat, n: nat)
    requires AllWritable(rs) && k <= |rs| && |EncodeAll(s, rs[..k])| <= n
    ensures k <= Kept(rs, n)
    decreases |rs|
  {
    if k > 0 {
      KeptStep(rs, n);
      PrefixSize(s, rs, k);
      KeptCovers(s, rs[1..], k - 1, n - Size(rs[0]));
    }
  }

  lemma Positive(r: Rec)
    ensures Size(r) > 0
  {}

  /** A record appended behind the prefix does not change what lies inside it. */
  lemma {:induction false} KeptGrows(s: Sums, rs: seq<Rec>, r: Rec, n: nat)
    requires AllWritable(rs) && n <= |EncodeAll(s, rs)|
    ensures Kept(rs + [r], n) == Kept(rs, n)
    decreases |rs|
  {
    KeptStep(rs + [r], n);
    if rs == [] {
      Positive(r);
    } else {
      KeptStep(rs, n);
      SizeIs(s, rs[0]);
      assert (rs + [r])[1..] == rs[1..] + [r];
      if Size(rs[0]) <= n { KeptGrows(s, rs[1..], r, n - Size(rs[0])); }
    }
  }

  lemma {:induction false} EncodeSnoc(s: Sums, rs: seq<Rec>, r: Rec)
    requires AllWritable(rs) && Writable(r)
    ensures AllWritable(rs + [r]) && EncodeAll(s, rs + [r]) == EncodeAll(s, rs) + Encode(s, r)
    decreases |rs|
  {
    if rs == [] {
      assert [r][1..] == [] && Encode(s, r) + [] == Encode(s, r) && [] + [r] == [r];
    } else {
      EncodeSnoc(s, rs[1..], r);
      assert (rs + [r])[1..] == rs[1..] + [r];
      Safety.Regroup(Encode(s, rs[0]), EncodeAll(s, rs[1..]), Encode(s, r));
    }
  }

  lemma Rejoined<T>(rs: seq<T>)
    requires rs != []
    ensures rs[..|rs| - 1] + [rs[|rs| - 1]] == rs
  {
  }

  predicate Encodes(s: Sums, log: seq<seq<byte>>, rs: seq<Rec>) {
    |log| == |rs| && AllWritable(rs) && forall i :: 0 <= i < |rs| ==> log[i] == Encode(s, rs[i])
  }

  lemma {:induction false} FlatIsAll(s: Sums, log: seq<seq<byte>>, rs: seq<Rec>)
    requires Encodes(s, log, rs)
    ensures G.Flat(log) == EncodeAll(s, rs)
    decreases |rs|
  {
    if rs != [] {
      var n := |rs| - 1;
      FlatIsAll(s, log[..n], rs[..n]);
      EncodeSnoc(s, rs[..n], rs[n]);
      Rejoined(rs);
    }
  }

  lemma ConcatSnoc(s: Sums, a: seq<Rec>, front: seq<Rec>, r: Rec)
    requires AllWritable(a) && AllWritable(front) && AllWritable(a + front) && Writable(r)
    requires EncodeAll(s, a + front) == EncodeAll(s, a) + EncodeAll(s, front)
    ensures AllWritable(a + (front + [r]))
    ensures AllWritable(front + [r]) && EncodeAll(s, a + (front + [r])) == EncodeAll(s, a) + EncodeAll(s, front + [r])
  {
    EncodeSnoc(s, a + front, r);
    EncodeSnoc(s, front, r);
    Associate(a, front, [r]);
    Safety.Regroup(EncodeAll(s, a), EncodeAll(s, front), Encode(s, r));
  }

  lemma Associate<T>(a: seq<T>, b: seq<T>, c: seq<T>)
    ensures (a + b) + c == a + (b + c)
  {
  }

  lemma {:induction false} EncodeConcat(s: Sums, a: seq<Rec>, b: seq<Rec>)
    requires AllWritable(a) && AllWritable(b)
    ensures AllWritable(a + b) && EncodeAll(s, a + b) == EncodeAll(s, a) + EncodeAll(s, b)
    decreases |b|
  {
    if b == [] {
      assert a + b == a;
      assert EncodeAll(s, a) + [] == EncodeAll(s, a);
    } else {
      var front, r := b[..|b| - 1], b[|b| - 1];
      Rejoined(b);
      EncodeConcat(s, a, front);
      ConcatSnoc(s, a, front, r);
    }
  }

  /** The closed chunk files are together the encoding of the closed records. */
  lemma {:induction false} ClosedFlat(s: Sums, closed: seq<seq<Rec>>)
    requires AllV6Chunks(closed)
    ensures AllWritable(Concat(closed)) && G.Flat(ChunkBytes(s, closed)) == EncodeAll(s, Concat(closed))
    decreases |closed|
  {
    ConcatV6(closed);
    if closed != [] {
      var front, last := closed[..|closed| - 1], closed[|closed| - 1];
      ClosedFlat(s, front);
      Safety.FlatSnoc(ChunkBytes(s, front), EncodeAll(s, last));
      EncodeConcat(s, Concat(front), last);
    }
  }

  lemma {:induction false} KeptExactly(s: Sums, rs: seq<Rec>, j: nat)
    requires AllWritable(rs) && j <= |rs|
    ensures Kept(rs, |EncodeAll(s, rs[..j])|) == j
    decreases |rs|
  {
    if rs != [] {
      KeptStep(rs, |EncodeAll(s, rs[..j])|);
      if j == 0 {
        Positive(rs[0]);
      } else {
        PrefixSize(s, rs, j);
        KeptExactly(s, rs[1..], j - 1);
      }
    }
  }

  // ---------------------------------------------------------------- the two states

  ghost predicate V6Log<S>(db: R.Db<S>) {
    AllV6Chunks(db.closed) && AllV6(Concat(db.closed)) && AllV6(db.open) && AllV6(R.Log(db))
  }

  /** The bytes in the closed chunk files. */
  ghost function ClosedBytes<S>(s: Sums, db: R.Db<S>): seq<byte>
    requires V6Log(db)
  {
    EncodeAll(s, Concat(db.closed))
  }

  function Last(chunks: seq<seq<byte>>): seq<byte>
    requires chunks != []
  {
    chunks[|chunks| - 1]
  }

  /** The chunk files are the closed chunks, whole, and the open one. */
  ghost predicate SameFiles<S>(s: Sums, chunks: seq<seq<byte>>, db: R.Db<S>) {
    AllV6Chunks(db.closed) && |chunks| == |db.closed| + 1 && chunks[..|db.closed|] == ChunkBytes(s, db.closed)
  }

  /** The synced records are those inside the synced bytes. */
  ghost predicate SyncedTo<S>(s: Sums, db: R.Db<S>, bytes: nat) {
    V6Log(db) && |ClosedBytes(s, db)| <= bytes
    && db.synced == |Concat(db.closed)| + Kept(db.open, bytes - |ClosedBytes(s, db)|)
  }

  /** The acknowledged commits are those up to the highest answered ticket. */
  ghost predicate AckedTo<S>(db: R.Db<S>, ticket: nat) {
    V6Log(db) && ticket <= |R.Log(db)| && db.acked == CommitsIn(R.Log(db)[..ticket])
  }

  ghost predicate Linked<S>(s: Sums, g: G.State, db: R.Db<S>) {
    && V6Log(db) && Encodes(s, g.log, R.Log(db)) && SameFiles(s, g.chunks, db)
    && SyncedTo(s, db, g.synced) && AckedTo(db, g.acked)
  }

  // The bytes of a prefix of the log that reaches into the open chunk.
  lemma PrefixBytes<S>(s: Sums, log: seq<seq<byte>>, db: R.Db<S>, k: nat, j: nat)
    requires V6Log(db) && Encodes(s, log, R.Log(db)) && k == |Concat(db.closed)| + j && j <= |db.open|
    ensures G.Flat(log[..k]) == ClosedBytes(s, db) + EncodeAll(s, db.open[..j])
  {
    FlatIsAll(s, log[..k], R.Log(db)[..k]);
    assert R.Log(db)[..k] == Concat(db.closed) + db.open[..j];
    EncodeConcat(s, Concat(db.closed), db.open[..j]);
  }

  lemma WholeBytes<S>(s: Sums, log: seq<seq<byte>>, db: R.Db<S>)
    requires V6Log(db) && Encodes(s, log, R.Log(db))
    ensures G.Flat(log) == ClosedBytes(s, db) + EncodeAll(s, db.open)
  {
    PrefixBytes(s, log, db, |log|, |db.open|);
    assert log[..|log|] == log && db.open[..|db.open|] == db.open;
  }

  lemma PrefixShorter(s: Sums, rs: seq<Rec>, k: nat)
    requires AllWritable(rs) && k < |rs|
    ensures |EncodeAll(s, rs[..k])| < |EncodeAll(s, rs)|
  {
    assert rs == rs[..k] + rs[k..];
    EncodeConcat(s, rs[..k], rs[k..]);
    SizeIs(s, rs[k]);
    Positive(rs[k]);
    AllCons(s, rs[k..], Encode(s, rs[k]), rs[k..][1..]);
  }

  // A prefix that ends inside the closed chunks is shorter than they are.
  lemma ShortPrefix<S>(s: Sums, log: seq<seq<byte>>, db: R.Db<S>, k: nat)
    requires V6Log(db) && Encodes(s, log, R.Log(db)) && k < |Concat(db.closed)|
    ensures |G.Flat(log[..k])| < |ClosedBytes(s, db)|
  {
    var closed := Concat(db.closed);
    FlatIsAll(s, log[..k], R.Log(db)[..k]);
    assert R.Log(db)[..k] == closed[..k];
    PrefixShorter(s, closed, k);
  }

  lemma FlatLast(chunks: seq<seq<byte>>, front: seq<seq<byte>>)
    requires chunks != [] && chunks[..|chunks| - 1] == front
    ensures G.Flat(chunks) == G.Flat(front) + Last(chunks)
  {
  }

  lemma FilesFlat<S>(s: Sums, chunks: seq<seq<byte>>, db: R.Db<S>)
    requires V6Log(db) && SameFiles(s, chunks, db)
    ensures G.Flat(chunks) == ClosedBytes(s, db) + Last(chunks)
  {
    ClosedFlat(s, db.closed);
    FlatLast(chunks, ChunkBytes(s, db.closed));
  }

  /** What is written of the open chunk is a prefix of its encoding. */
  lemma OpenWritten<S>(s: Sums, g: G.State, db: R.Db<S>)
    requires V6Log(db) && Encodes(s, g.log, R.Log(db)) && SameFiles(s, g.chunks, db) && Safety.Accounted(g, [])
    ensures G.Written(g) == ClosedBytes(s, db) + Last(g.chunks) && Last(g.chunks) <= EncodeAll(s, db.open)
  {
    FilesFlat(s, g.chunks, db);
    WholeBytes(s, g.log, db);
    assert [] + G.Flat(g.log) == G.Flat(g.log);
    SharedFront(ClosedBytes(s, db), Last(g.chunks), EncodeAll(s, db.open));
  }

  lemma SharedFront(a: seq<byte>, x: seq<byte>, y: seq<byte>)
    requires a + x <= a + y
    ensures x <= y
  {
    assert (a + x)[|a|..] == x && (a + y)[|a|..] == y;
    assert (a + x) == (a + y)[..|a| + |x|];
    assert (a + y)[..|a| + |x|][|a|..] == y[..|x|];
  }

  lemma SyncedRange<S>(s: Sums, db: R.Db<S>, bytes: nat)
    requires SyncedTo(s, db, bytes)
    ensures |Concat(db.closed)| <= db.synced <= |R.Log(db)|
  {
    KeptMore(db.open, bytes - |ClosedBytes(s, db)|, bytes - |ClosedBytes(s, db)|);
  }

  // Durable records are inside the synced bytes.
  lemma DurableInside<S>(s: Sums, g: G.State, db: R.Db<S>, k: nat)
    requires Linked(s, g, db) && Safety.DurableTo(g, [], k)
    ensures k <= db.synced <= |R.Log(db)|
  {
    SyncedRange(s, db, g.synced);
    assert [] + G.Flat(g.log[..k]) == G.Flat(g.log[..k]);
    InsideSynced(s, g.log, db, k, g.synced);
  }

  lemma OpenInside<S>(s: Sums, db: R.Db<S>, j: nat, bytes: nat)
    requires SyncedTo(s, db, bytes) && j <= |db.open|
    requires |ClosedBytes(s, db) + EncodeAll(s, db.open[..j])| <= bytes
    ensures |Concat(db.closed)| + j <= db.synced
  {
    SumLength(ClosedBytes(s, db), EncodeAll(s, db.open[..j]));
    KeptCovers(s, db.open, j, bytes - |ClosedBytes(s, db)|);
  }

  lemma InsideSynced<S>(s: Sums, log: seq<seq<byte>>, db: R.Db<S>, k: nat, bytes: nat)
    requires SyncedTo(s, db, bytes) && Encodes(s, log, R.Log(db)) && k <= |log| && |G.Flat(log[..k])| <= bytes
    ensures k <= db.synced
  {
    if k > |Concat(db.closed)| {
      var j := k - |Concat(db.closed)|;
      PrefixBytes(s, log, db, k, j);
      OpenInside(s, db, j, bytes);
    }
  }

  // ---------------------------------------------------------------- one step

  /** What an enqueued record stands for. */
  datatype What = OfCommit(c: Commit) | OfMarker(ts: int, path: seq<byte>)

  ghost predicate Writes<S>(s: Sums, scheme: byte, db: R.Db<S>, record: seq<byte>, what: What) {
    match what
    case OfCommit(c) =>
      R.Enabled(db, R.DoCommit(c)) && SchemeOk(scheme) && record == Encode(s, CommitRec(scheme, c, |db.commits| + 1))
    case OfMarker(ts, path) =>
      R.Enabled(db, R.DoMark(ts, path)) && SchemeOk(scheme) && record == Encode(s, MarkerRec(scheme, db.job.lsn, ts, path))
  }

  function Written(what: What): R.Step {
    match what
    case OfCommit(c) => R.DoCommit(c)
    case OfMarker(ts, path) => R.DoMark(ts, path)
  }

  /** No flush has failed, published or not. */
  ghost predicate Unharmed(g: G.State) {
    !g.core.failed && forall t :: t in g.pc && g.pc[t].Io? ==> g.pc[t].stage != G.Finished(false)
  }

  /** The step of the log of records that a step of group commit stands for. */
  ghost function Abstract<S>(g: G.State, db: R.Db<S>, step: G.Step, what: What): Option<R.Step>
    requires V6Log(db) && G.Enabled(g, step)
  {
    match step
    case Enqueue(_, _) => Some(Written(what))
    case EnqueueMarker(_, _) => Some(Written(what))
    case Sync(_) =>
      if g.chunks == [] then None
      else Some(R.DoSync(|Concat(db.closed)| + Kept(db.open, |Last(g.chunks)|)))
    case CheckDurable(t) =>
      var top := G.Max(g.acked, g.pc[t].ticket);
      if top <= |R.Log(db)| then Some(R.DoAck(CommitsIn(R.Log(db)[..top]))) else None
    case RotateSwap(_) => Some(R.DoRotate)
    case _ => None
  }

  lemma RecordWritten<S>(s: Sums, scheme: byte, db: R.Db<S>, record: seq<byte>, what: What) returns (r: Rec)
    requires R.LogInv(scheme, db) && Writes(s, scheme, db, record, what)
    ensures r.V6? && Writable(r) && record == Encode(s, r)
    ensures R.Enabled(db, Written(what))
    ensures forall apply: Apply<S>, init: S :: var db' := R.Next(apply, init, scheme, db, Written(what));
      db'.closed == db.closed && db'.open == db.open + [r] && db'.synced == db.synced && db'.acked == db.acked
  {
    match what
    case OfCommit(c) => r := CommitRec(scheme, c, |db.commits| + 1);
    case OfMarker(ts, path) => r := R.MarkerShape(scheme, db.job.lsn, ts, path);
  }

  lemma SyncedGrows<S>(s: Sums, db: R.Db<S>, db': R.Db<S>, r: Rec, bytes: nat)
    requires SyncedTo(s, db, bytes) && bytes <= |ClosedBytes(s, db)| + |EncodeAll(s, db.open)| && V6Log(db')
    requires db'.closed == db.closed && db'.open == db.open + [r] && db'.synced == db.synced
    ensures SyncedTo(s, db', bytes)
  {
    KeptGrows(s, db.open, r, bytes - |ClosedBytes(s, db)|);
  }

  lemma AckedGrows<S>(db: R.Db<S>, db': R.Db<S>, r: Rec, ticket: nat)
    requires AckedTo(db, ticket) && V6Log(db') && R.Log(db') == R.Log(db) + [r] && db'.acked == db.acked
    ensures AckedTo(db', ticket)
  {
    assert R.Log(db')[..ticket] == R.Log(db)[..ticket];
  }

  lemma LogGrows<S>(db: R.Db<S>, db': R.Db<S>, r: Rec)
    requires V6Log(db) && r.V6? && Writable(r) && db'.closed == db.closed && db'.open == db.open + [r]
    ensures V6Log(db') && R.Log(db') == R.Log(db) + [r]
  {
    AppendV6(Concat(db.closed), db'.open);
    assert Concat(db.closed) + (db.open + [r]) == (Concat(db.closed) + db.open) + [r];
  }

  lemma LinkedGrows<S>(s: Sums, g: G.State, db: R.Db<S>, g': G.State, db': R.Db<S>, r: Rec)
    requires Linked(s, g, db) && Safety.Accounted(g, []) && r.V6? && Writable(r)
    requires g'.log == g.log + [Encode(s, r)] && g'.synced == g.synced && g'.acked == g.acked && g'.chunks == g.chunks
    requires db'.closed == db.closed && db'.open == db.open + [r] && db'.synced == db.synced && db'.acked == db.acked
    ensures Linked(s, g', db')
  {
    OpenWritten(s, g, db);
    LogGrows(db, db', r);
    SyncedGrows(s, db, db', r, g.synced);
    AckedGrows(db, db', r, g.acked);
  }

  /** The records make the given step, if any, and stay linked to the group. */
  ghost predicate Follows<S>(
      apply: Apply<S>, init: S, s: Sums, scheme: byte, g: G.State, db: R.Db<S>, move: Option<R.Step>)
  {
    if move.Some? then R.Enabled(db, move.value) && Linked(s, g, R.Next(apply, init, scheme, db, move.value))
    else Linked(s, g, db)
  }

  lemma SyncBounds<S>(s: Sums, g: G.State, db: R.Db<S>, to: nat)
    requires Linked(s, g, db) && Safety.Accounted(g, []) && to == |Concat(db.closed)| + Kept(db.open, |Last(g.chunks)|)
    ensures db.synced <= to <= |R.Log(db)| && |G.Written(g)| == |ClosedBytes(s, db)| + |Last(g.chunks)|
  {
    OpenWritten(s, g, db);
    SumLength(ClosedBytes(s, db), Last(g.chunks));
    MoreSynced(s, db, g.synced, |Last(g.chunks)|, to);
  }

  lemma SumLength(a: seq<byte>, b: seq<byte>)
    ensures |a + b| == |a| + |b|
  {
  }

  lemma MoreSynced<S>(s: Sums, db: R.Db<S>, bytes: nat, size: nat, to: nat)
    requires SyncedTo(s, db, bytes) && bytes <= |ClosedBytes(s, db)| + size
    requires to == |Concat(db.closed)| + Kept(db.open, size)
    ensures db.synced <= to <= |R.Log(db)|
  {
    KeptMore(db.open, bytes - |ClosedBytes(s, db)|, size);
  }

  lemma SyncShape(g: G.State, step: G.Step)
    requires G.Enabled(g, step) && step.Sync?
    ensures var g' := G.Apply(g, step);
      g'.log == g.log && g'.chunks == g.chunks && g'.acked == g.acked && g'.synced == |G.Written(g)|
  {
  }

  // Only the counters move.
  lemma Relinked<S>(s: Sums, g: G.State, db: R.Db<S>, g': G.State, db': R.Db<S>)
    requires Linked(s, g, db) && g'.log == g.log && g'.chunks == g.chunks
    requires db'.closed == db.closed && db'.open == db.open
    requires SyncedTo(s, db', g'.synced) && AckedTo(db', g'.acked)
    ensures Linked(s, g', db')
  {
  }

  lemma SyncedAs<S>(s: Sums, db: R.Db<S>, db': R.Db<S>, bytes: nat)
    requires SyncedTo(s, db, bytes) && db'.closed == db.closed && db'.open == db.open && db'.synced == db.synced
    ensures SyncedTo(s, db', bytes)
  {
  }

  lemma AckedAs<S>(db: R.Db<S>, db': R.Db<S>, ticket: nat)
    requires AckedTo(db, ticket) && db'.closed == db.closed && db'.open == db.open && db'.acked == db.acked
    ensures AckedTo(db', ticket)
  {
  }

  lemma SyncedNow<S>(s: Sums, db: R.Db<S>, db': R.Db<S>, to: nat, bytes: nat)
    requires V6Log(db) && db'.closed == db.closed && db'.open == db.open && db'.synced == to
    requires |ClosedBytes(s, db)| <= bytes && to == |Concat(db.closed)| + Kept(db.open, bytes - |ClosedBytes(s, db)|)
    ensures SyncedTo(s, db', bytes)
  {
  }

  lemma AckedNow<S>(db: R.Db<S>, db': R.Db<S>, top: nat)
    requires V6Log(db) && db'.closed == db.closed && db'.open == db.open
    requires top <= |R.Log(db)| && db'.acked == CommitsIn(R.Log(db)[..top])
    ensures AckedTo(db', top)
  {
  }

  lemma SyncMoves<S>(s: Sums, g: G.State, db: R.Db<S>, to: nat, g': G.State, db': R.Db<S>)
    requires Linked(s, g, db) && Safety.Accounted(g, []) && to == |Concat(db.closed)| + Kept(db.open, |Last(g.chunks)|)
    requires g'.log == g.log && g'.chunks == g.chunks && g'.acked == g.acked && g'.synced == |G.Written(g)|
    requires db' == db.(synced := to)
    ensures Linked(s, g', db')
  {
    SyncBounds(s, g, db, to);
    SyncedNow(s, db, db', to, g'.synced);
    AckedAs(db, db', g.acked);
    Relinked(s, g, db, g', db');
  }

  lemma SyncLinks<S>(apply: Apply<S>, init: S, s: Sums, scheme: byte, g: G.State, db: R.Db<S>, step: G.Step, to: nat)
    requires Linked(s, g, db) && Safety.Accounted(g, []) && G.Enabled(g, step) && step.Sync?
    requires to == |Concat(db.closed)| + Kept(db.open, |Last(g.chunks)|)
    ensures Follows(apply, init, s, scheme, G.Apply(g, step), db, Some(R.DoSync(to)))
  {
    SyncBounds(s, g, db, to);
    SyncShape(g, step);
    SyncMoves(s, g, db, to, G.Apply(g, step), R.Next(apply, init, scheme, db, R.DoSync(to)));
  }

  // The records whose tickets are answered are synced.
  lemma AckBounds<S>(s: Sums, g: G.State, db: R.Db<S>, ticket: nat, top: nat)
    requires Linked(s, g, db) && Runs.Inv(g, []) && top == G.Max(g.acked, ticket)
    requires !g.core.failed && ticket <= g.core.flushed
    ensures g.acked <= top <= db.synced <= |R.Log(db)|
  {
    Safety.DurableDown(g, [], ticket, g.core.flushed);
    DurableInside(s, g, db, top);
  }

  lemma AckCommits<S>(s: Sums, g: G.State, db: R.Db<S>, top: nat)
    requires V6Log(db) && AckedTo(db, g.acked) && g.acked <= top <= db.synced <= |R.Log(db)|
    ensures R.Enabled(db, R.DoAck(CommitsIn(R.Log(db)[..top])))
  {
    CommitsBetween(R.Log(db), g.acked, top);
    CommitsBetween(R.Log(db), top, db.synced);
  }

  lemma AckShape(g: G.State, step: G.Step)
    requires G.Enabled(g, step) && step.CheckDurable?
    ensures var g' := G.Apply(g, step);
      g'.log == g.log && g'.chunks == g.chunks && g'.synced == g.synced && g'.acked == G.Max(g.acked, g.pc[step.t].ticket)
    ensures !g.core.failed && g.pc[step.t].ticket <= g.core.flushed
  {
  }

  lemma AckMoves<S>(s: Sums, g: G.State, db: R.Db<S>, top: nat, g': G.State, db': R.Db<S>)
    requires Linked(s, g, db) && top <= |R.Log(db)|
    requires g'.log == g.log && g'.chunks == g.chunks && g'.synced == g.synced && g'.acked == top
    requires db' == db.(acked := CommitsIn(R.Log(db)[..top]))
    ensures Linked(s, g', db')
  {
    SyncedAs(s, db, db', g.synced);
    AckedNow(db, db', top);
    Relinked(s, g, db, g', db');
  }

  lemma AckLinks<S>(
      apply: Apply<S>, init: S, s: Sums, scheme: byte, g: G.State, db: R.Db<S>, step: G.Step, top: nat)
    requires Linked(s, g, db) && Runs.Inv(g, []) && G.Enabled(g, step) && step.CheckDurable?
    requires top == G.Max(g.acked, g.pc[step.t].ticket)
    ensures top <= |R.Log(db)|
    ensures Follows(apply, init, s, scheme, G.Apply(g, step), db, Some(R.DoAck(CommitsIn(R.Log(db)[..top]))))
  {
    AckShape(g, step);
    AckBounds(s, g, db, g.pc[step.t].ticket, top);
    AckCommits(s, g, db, top);
    AckMoves(s, g, db, top, G.Apply(g, step),
             R.Next(apply, init, scheme, db, R.DoAck(CommitsIn(R.Log(db)[..top]))));
  }

  lemma CommitsBetween(log: seq<Rec>, j: nat, k: nat)
    requires AllV6(log) && j <= k <= |log|
    ensures AllV6(log[..j]) && AllV6(log[..k]) && CommitsIn(log[..j]) <= CommitsIn(log[..k])
  {
    assert log[..k][..j] == log[..j];
    R.CommitsGrow(log[..k], j);
  }

  /** With the file lock free and nothing failed, the files end at a record and are synced. */
  lemma AtRecordEnd(g: G.State) returns (f: nat)
    requires Runs.Inv(g, []) && Unharmed(g) && g.fileHeld == None
    ensures f <= |g.log| && G.Written(g) == G.Flat(g.log[..f]) && g.synced == |G.Written(g)|
  {
    f := g.core.flushed;
    if Safety.AnyIo(g) {
      var t :| t in g.pc && g.pc[t].Io?;
      var pc := g.pc[t];
      assert Safety.InFlight(g, [], pc) && !Safety.HoldsFile(pc);
      if pc.stage != G.Queued { f := pc.flushTo; }
    } else {
      assert Safety.Settled(g, []);
    }
    assert [] + G.Flat(g.log[..f]) == G.Flat(g.log[..f]);
  }

  /** So the open file holds whole records, as many as are synced. */
  lemma OpenWhole<S>(s: Sums, g: G.State, db: R.Db<S>) returns (j: nat)
    requires Linked(s, g, db) && Runs.Inv(g, []) && Unharmed(g) && g.fileHeld == None
    ensures j <= |db.open| && Last(g.chunks) == EncodeAll(s, db.open[..j])
    ensures g.synced == |ClosedBytes(s, db)| + |Last(g.chunks)| && db.synced == |Concat(db.closed)| + j
  {
    var f := AtRecordEnd(g);
    OpenWritten(s, g, db);
    j := FileEnds(s, g.log, db, f, Last(g.chunks));
    SyncedAt(s, db, g.synced, j);
  }

  // Files that end with record `f` hold whole records in the open one.
  lemma FileEnds<S>(s: Sums, log: seq<seq<byte>>, db: R.Db<S>, f: nat, file: seq<byte>) returns (j: nat)
    requires V6Log(db) && Encodes(s, log, R.Log(db)) && f <= |log|
    requires G.Flat(log[..f]) == ClosedBytes(s, db) + file
    ensures j <= |db.open| && file == EncodeAll(s, db.open[..j])
  {
    if f < |Concat(db.closed)| { ShortPrefix(s, log, db, f); }
    j := f - |Concat(db.closed)|;
    PrefixBytes(s, log, db, f, j);
    SameBack(ClosedBytes(s, db), file, EncodeAll(s, db.open[..j]));
  }

  lemma SyncedAt<S>(s: Sums, db: R.Db<S>, bytes: nat, j: nat)
    requires SyncedTo(s, db, bytes) && j <= |db.open| && bytes == |ClosedBytes(s, db)| + |EncodeAll(s, db.open[..j])|
    ensures db.synced == |Concat(db.closed)| + j
  {
    KeptExactly(s, db.open, j);
  }

  lemma SameBack(a: seq<byte>, x: seq<byte>, y: seq<byte>)
    requires a + x == a + y
    ensures x == y
  {
    assert (a + x)[|a|..] == x && (a + y)[|a|..] == y;
  }

  lemma KeptNothing(rs: seq<Rec>)
    ensures Kept(rs, 0) == 0
  {
    if rs != [] {
      KeptStep(rs, 0);
      Positive(rs[0]);
    }
  }

  lemma RotatedFiles<S>(s: Sums, db: R.Db<S>, j: nat, db': R.Db<S>)
    requires V6Log(db) && j <= |db.open| && db'.closed == db.closed + [db.open[..j]] && db'.open == db.open[j..]
    ensures V6Log(db') && R.Log(db') == R.Log(db) && |Concat(db'.closed)| == |Concat(db.closed)| + j
    ensures ChunkBytes(s, db'.closed) == ChunkBytes(s, db.closed) + [EncodeAll(s, db.open[..j])]
    ensures ClosedBytes(s, db') == ClosedBytes(s, db) + EncodeAll(s, db.open[..j])
  {
    R.RotateLog(db, j);
    assert db'.closed[..|db.closed|] == db.closed;
    AppendV6(Concat(db.closed), db.open[..j]);
    EncodeConcat(s, Concat(db.closed), db.open[..j]);
  }

  lemma FrontOf<T>(chunks: seq<T>, last: T)
    ensures (chunks + [last])[..|chunks|] == chunks
  {
  }

  lemma FilesRotated<S>(s: Sums, chunks: seq<seq<byte>>, db: R.Db<S>, db': R.Db<S>, file: seq<byte>)
    requires SameFiles(s, chunks, db) && file == Last(chunks) && AllV6Chunks(db'.closed)
    requires |db'.closed| == |db.closed| + 1 && ChunkBytes(s, db'.closed) == ChunkBytes(s, db.closed) + [file]
    ensures SameFiles(s, chunks + [[]], db')
  {
    Rejoined(chunks);
    FrontOf(chunks, []);
  }

  lemma SyncedRotated<S>(s: Sums, db: R.Db<S>, db': R.Db<S>, j: nat, bytes: nat)
    requires V6Log(db') && bytes == |ClosedBytes(s, db')| && db'.synced == |Concat(db'.closed)|
    ensures SyncedTo(s, db', bytes)
  {
    KeptNothing(db'.open);
  }

  lemma Rotated<S>(s: Sums, g: G.State, db: R.Db<S>, j: nat, g': G.State, db': R.Db<S>)
    requires Linked(s, g, db) && j <= |db.open| && Last(g.chunks) == EncodeAll(s, db.open[..j])
    requires g.synced == |ClosedBytes(s, db)| + |Last(g.chunks)| && db.synced == |Concat(db.closed)| + j
    requires g'.log == g.log && g'.chunks == g.chunks + [[]] && g'.synced == g.synced && g'.acked == g.acked
    requires db' == db.(closed := db.closed + [db.open[..j]], open := db.open[j..], job := db'.job)
    ensures Linked(s, g', db')
  {
    RotatedFiles(s, db, j, db');
    FilesRotated(s, g.chunks, db, db', Last(g.chunks));
    SyncedRotated(s, db, db', j, g.synced);
  }

  lemma RotateShape<S>(apply: Apply<S>, init: S, scheme: byte, db: R.Db<S>, j: nat)
    requires R.Enabled(db, R.DoRotate) && db.synced == |Concat(db.closed)| + j && j <= |db.open|
    ensures R.Next(apply, init, scheme, db, R.DoRotate)
         == db.(closed := db.closed + [db.open[..j]], open := db.open[j..], job := R.NoJob)
  {
  }

  lemma RotateLinks<S>(apply: Apply<S>, init: S, s: Sums, scheme: byte, g: G.State, db: R.Db<S>, step: G.Step)
    requires Linked(s, g, db) && Runs.Inv(g, []) && G.Enabled(g, step) && step.RotateSwap?
    requires Unharmed(g) && R.Enabled(db, R.DoRotate)
    ensures Follows(apply, init, s, scheme, G.Apply(g, step), db, Some(R.DoRotate))
  {
    var j := OpenWhole(s, g, db);
    RotateShape(apply, init, scheme, db, j);
    Rotated(s, g, db, j, G.Apply(g, step), R.Next(apply, init, scheme, db, R.DoRotate));
  }

  predicate Quiet(step: G.Step) {
    !step.Enqueue? && !step.EnqueueMarker? && !step.Sync? && !step.CheckDurable? && !step.RotateSwap? && !step.Write?
  }

  lemma QuietLinks<S>(s: Sums, g: G.State, db: R.Db<S>, g': G.State)
    requires Linked(s, g, db)
    requires g'.log == g.log && g'.chunks == g.chunks && g'.synced == g.synced && g'.acked == g.acked
    ensures Linked(s, g', db)
  {
  }

  lemma QuietStep(g: G.State, step: G.Step)
    requires G.Enabled(g, step) && Quiet(step)
    ensures var g' := G.Apply(g, step);
      g'.log == g.log && g'.chunks == g.chunks && g'.synced == g.synced && g'.acked == g.acked
  {
  }

  lemma AppendLinks<S>(
      apply: Apply<S>, init: S, s: Sums, scheme: byte, g: G.State, db: R.Db<S>, step: G.Step, what: What)
    requires Linked(s, g, db) && Safety.Accounted(g, []) && R.LogInv(scheme, db) && G.Enabled(g, step)
    requires (step.Enqueue? || step.EnqueueMarker?) && Writes(s, scheme, db, step.record, what)
    ensures Follows(apply, init, s, scheme, G.Apply(g, step), db, Some(Written(what)))
  {
    var r := RecordWritten(s, scheme, db, step.record, what);
    LinkedGrows(s, g, db, G.Apply(g, step), R.Next(apply, init, scheme, db, Written(what)), r);
  }

  lemma WriteLinks<S>(s: Sums, g: G.State, db: R.Db<S>, step: G.Step)
    requires Linked(s, g, db) && G.Enabled(g, step) && step.Write?
    ensures Linked(s, G.Apply(g, step), db)
  {
    OpenGrows(s, g.chunks, db, G.Apply(g, step).chunks);
  }

  lemma OpenGrows<S>(s: Sums, chunks: seq<seq<byte>>, db: R.Db<S>, chunks': seq<seq<byte>>)
    requires SameFiles(s, chunks, db) && |chunks'| == |chunks| && chunks'[..|chunks| - 1] == chunks[..|chunks| - 1]
    ensures SameFiles(s, chunks', db)
  {
  }

  lemma StillLinks<S>(
      apply: Apply<S>, init: S, s: Sums, scheme: byte, g: G.State, db: R.Db<S>, step: G.Step)
    requires Linked(s, g, db) && G.Enabled(g, step) && (step.Write? || Quiet(step))
    ensures Follows(apply, init, s, scheme, G.Apply(g, step), db, None)
  {
    if step.Write? {
      WriteLinks(s, g, db, step);
    } else {
      QuietStep(g, step);
      QuietLinks(s, g, db, G.Apply(g, step));
    }
  }

  /** What a step of group commit needs to be a step of the log of records. */
  ghost predicate Allowed<S>(s: Sums, scheme: byte, g: G.State, db: R.Db<S>, step: G.Step, what: What) {
    && (step.Enqueue? || step.EnqueueMarker? ==> Writes(s, scheme, db, step.record, what))
    && (step.RotateSwap? ==> Unharmed(g) && R.Enabled(db, R.DoRotate))
  }

  lemma AppendOrRotate<S>(
      apply: Apply<S>, init: S, s: Sums, scheme: byte, g: G.State, db: R.Db<S>, step: G.Step, what: What)
    requires Linked(s, g, db) && Runs.Inv(g, []) && R.LogInv(scheme, db) && G.Enabled(g, step)
    requires Allowed(s, scheme, g, db, step, what) && (step.Enqueue? || step.EnqueueMarker? || step.RotateSwap?)
    ensures Follows(apply, init, s, scheme, G.Apply(g, step), db, Abstract(g, db, step, what))
  {
    if step.RotateSwap? {
      RotateLinks(apply, init, s, scheme, g, db, step);
    } else {
      AppendLinks(apply, init, s, scheme, g, db, step, what);
    }
  }

  lemma AbstractSync<S>(g: G.State, db: R.Db<S>, step: G.Step, what: What, to: nat)
    requires V6Log(db) && G.Enabled(g, step) && step.Sync? && g.chunks != []
    requires to == |Concat(db.closed)| + Kept(db.open, |Last(g.chunks)|)
    ensures Abstract(g, db, step, what) == Some(R.DoSync(to))
  {
  }

  lemma SyncFollows<S>(
      apply: Apply<S>, init: S, s: Sums, scheme: byte, g: G.State, db: R.Db<S>, step: G.Step, what: What, to: nat)
    requires Linked(s, g, db) && Runs.Inv(g, []) && G.Enabled(g, step) && step.Sync?
    requires to == |Concat(db.closed)| + Kept(db.open, |Last(g.chunks)|)
    ensures Follows(apply, init, s, scheme, G.Apply(g, step), db, Abstract(g, db, step, what))
  {
    SyncLinks(apply, init, s, scheme, g, db, step, to);
    AbstractSync(g, db, step, what, to);
  }

  lemma AckFollows<S>(
      apply: Apply<S>, init: S, s: Sums, scheme: byte, g: G.State, db: R.Db<S>, step: G.Step, what: What)
    requires Linked(s, g, db) && Runs.Inv(g, []) && G.Enabled(g, step) && step.CheckDurable?
    ensures Follows(apply, init, s, scheme, G.Apply(g, step), db, Abstract(g, db, step, what))
  {
    var top := G.Max(g.acked, g.pc[step.t].ticket);
    AckLinks(apply, init, s, scheme, g, db, step, top);
    assert Abstract(g, db, step, what) == Some(R.DoAck(CommitsIn(R.Log(db)[..top])));
  }

  /** Every step of group commit is a step of the log of records, or none. */
  lemma StepLinks<S>(
      apply: Apply<S>, init: S, s: Sums, scheme: byte, g: G.State, db: R.Db<S>, step: G.Step, what: What)
    requires Linked(s, g, db) && Runs.Inv(g, []) && R.LogInv(scheme, db)
    requires G.Enabled(g, step) && Allowed(s, scheme, g, db, step, what)
    ensures Follows(apply, init, s, scheme, G.Apply(g, step), db, Abstract(g, db, step, what))
  {
    if step.Enqueue? || step.EnqueueMarker? || step.RotateSwap? {
      AppendOrRotate(apply, init, s, scheme, g, db, step, what);
    } else if step.Sync? {
      SyncFollows(apply, init, s, scheme, g, db, step, what, |Concat(db.closed)| + Kept(db.open, |Last(g.chunks)|));
    } else if step.CheckDurable? {
      AckFollows(apply, init, s, scheme, g, db, step, what);
    } else {
      StillLinks(apply, init, s, scheme, g, db, step);
    }
  }

  // ---------------------------------------------------------------- runs of both

  datatype Both<S> = Both(g: G.State, db: R.Db<S>)

  /** A step of the threads on the group, or of a checkpoint on the snapshot. */
  datatype Move = Flush(step: G.Step, what: What) | Job(task: R.Step)

  ghost predicate Enabled<S>(s: Sums, scheme: byte, p: Both<S>, move: Move) {
    match move
    case Flush(step, what) =>
      G.Enabled(p.g, step) && Safety.Exclusive(p.g, step) && Allowed(s, scheme, p.g, p.db, step, what)
    case Job(step) => (step.DoCapture? || step.DoGiveUp? || step.DoRename?) && R.Enabled(p.db, step)
  }

  ghost function Next<S>(apply: Apply<S>, init: S, s: Sums, scheme: byte, p: Both<S>, move: Move): Both<S>
    requires Enabled(s, scheme, p, move) && V6Log(p.db)
  {
    match move
    case Flush(step, what) =>
      var abs := Abstract(p.g, p.db, step, what);
      Both(G.Apply(p.g, step),
           if abs.Some? && R.Enabled(p.db, abs.value) then R.Next(apply, init, scheme, p.db, abs.value) else p.db)
    case Job(step) => Both(p.g, R.Next(apply, init, scheme, p.db, step))
  }

  ghost predicate Run<S(!new)>(
      apply: Apply<S>, init: S, s: Sums, scheme: byte, states: seq<Both<S>>, moves: seq<Move>)
  {
    && SchemeOk(scheme) && |states| == |moves| + 1
    && Runs.Start(states[0].g, []) && R.Start(states[0].db, init)
    && forall i :: 0 <= i < |moves| ==>
         && V6Log(states[i].db) && Enabled(s, scheme, states[i], moves[i])
         && states[i + 1] == Next(apply, init, s, scheme, states[i], moves[i])
  }

  ghost predicate Inv<S>(apply: Apply<S>, init: S, s: Sums, scheme: byte, p: Both<S>) {
    Linked(s, p.g, p.db) && Runs.Inv(p.g, []) && R.Inv(apply, init, scheme, p.db)
  }

  lemma KeepsRecords<S>(apply: Apply<S>, init: S, s: Sums, scheme: byte, g: G.State, db: R.Db<S>, move: Option<R.Step>)
    requires R.Inv(apply, init, scheme, db) && Follows(apply, init, s, scheme, g, db, move)
    ensures var db' := if move.Some? && R.Enabled(db, move.value) then R.Next(apply, init, scheme, db, move.value) else db;
      Linked(s, g, db') && R.Inv(apply, init, scheme, db')
  {
    if move.Some? { R.KeepsInv(apply, init, scheme, db, move.value); }
  }

  lemma KeepsGroup(g: G.State, step: G.Step)
    requires Runs.Inv(g, []) && G.Enabled(g, step) && Safety.Exclusive(g, step)
    ensures Runs.Inv(G.Apply(g, step), [])
  {
    Safety.KeepsControl(g, step);
    Safety.KeepsAccounted(g, step, []);
  }

  lemma KeepsJob<S>(apply: Apply<S>, init: S, s: Sums, scheme: byte, g: G.State, db: R.Db<S>, step: R.Step)
    requires Linked(s, g, db) && R.Inv(apply, init, scheme, db) && R.Enabled(db, step)
    requires step.DoCapture? || step.DoGiveUp? || step.DoRename?
    ensures Linked(s, g, R.Next(apply, init, scheme, db, step))
    ensures R.Inv(apply, init, scheme, R.Next(apply, init, scheme, db, step))
  {
    R.KeepsInv(apply, init, scheme, db, step);
  }

  lemma KeepsInv<S>(apply: Apply<S>, init: S, s: Sums, scheme: byte, p: Both<S>, move: Move)
    requires Inv(apply, init, s, scheme, p) && Enabled(s, scheme, p, move)
    ensures Inv(apply, init, s, scheme, Next(apply, init, s, scheme, p, move))
  {
    match move
    case Flush(step, what) =>
      KeepsGroup(p.g, step);
      StepLinks(apply, init, s, scheme, p.g, p.db, step, what);
      KeepsRecords(apply, init, s, scheme, G.Apply(p.g, step), p.db, Abstract(p.g, p.db, step, what));
    case Job(step) =>
      KeepsJob(apply, init, s, scheme, p.g, p.db, step);
  }

  lemma StartInv<S>(apply: Apply<S>, init: S, s: Sums, scheme: byte, p: Both<S>)
    requires SchemeOk(scheme) && Runs.Start(p.g, []) && R.Start(p.db, init)
    ensures Inv(apply, init, s, scheme, p)
  {
    Runs.StartInv(p.g, []);
    assert Lsn(0) by { FieldWidths(); }
    assert R.Log(p.db) == [];
    KeptNothing([]);
  }

  lemma {:induction false} RunInv<S(!new)>(
      apply: Apply<S>, init: S, s: Sums, scheme: byte, states: seq<Both<S>>, moves: seq<Move>, i: nat)
    requires Run(apply, init, s, scheme, states, moves) && i <= |moves|
    ensures Inv(apply, init, s, scheme, states[i])
    decreases i
  {
    if i == 0 {
      StartInv(apply, init, s, scheme, states[0]);
    } else {
      RunInv(apply, init, s, scheme, states, moves, i - 1);
      KeepsInv(apply, init, s, scheme, states[i - 1], moves[i - 1]);
    }
  }

  /** A crash that cuts the open file after `n` bytes, none of them synced, is a crash of the records. */
  lemma CrashLinks<S>(s: Sums, p: Both<S>, n: nat)
    requires Linked(s, p.g, p.db) && Safety.Accounted(p.g, []) && Leaves(p.g, n)
    ensures R.Crash(s, p.db, n)
    ensures Image(s, p.db.closed, p.db.open, n) == Left(p.g, n)
  {
    OpenWritten(s, p.g, p.db);
    SumLength(ClosedBytes(s, p.db), Last(p.g.chunks));
    CrashKeeps(s, p.db, p.g.synced, n);
    LeftImage(s, p, n);
  }

  lemma CrashKeeps<S>(s: Sums, db: R.Db<S>, bytes: nat, n: nat)
    requires SyncedTo(s, db, bytes) && n <= |EncodeAll(s, db.open)| && bytes <= |ClosedBytes(s, db)| + n
    ensures R.Crash(s, db, n)
  {
    MoreSynced(s, db, bytes, n, |Concat(db.closed)| + Kept(db.open, n));
    InsideMatches(db.open, n, 0);
  }

  lemma LeftImage<S>(s: Sums, p: Both<S>, n: nat)
    requires V6Log(p.db) && SameFiles(s, p.g.chunks, p.db) && Leaves(p.g, n)
    requires Last(p.g.chunks) <= EncodeAll(s, p.db.open)
    ensures n <= |EncodeAll(s, p.db.open)| && Image(s, p.db.closed, p.db.open, n) == Left(p.g, n)
  {
    PrefixCut(Last(p.g.chunks), EncodeAll(s, p.db.open), n);
  }

  lemma PrefixCut(a: seq<byte>, b: seq<byte>, n: nat)
    requires n <= |a| && a <= b
    ensures a[..n] == b[..n]
  {
  }

  /** What a crash may leave: every closed file, and `n` bytes of the open one, the synced ones among them. */
  predicate Leaves(g: G.State, n: nat) {
    g.chunks != [] && n <= |Last(g.chunks)| && g.synced + |Last(g.chunks)| <= |G.Written(g)| + n
  }

  function Left(g: G.State, n: nat): seq<seq<byte>>
    requires Leaves(g, n)
  {
    g.chunks[..|g.chunks| - 1] + [Last(g.chunks)[..n]]
  }

  /** Booting from what the crash left gives the state after the first `m` commits. */
  ghost predicate Restores<S>(apply: Apply<S>, init: S, s: Sums, p: Both<S>, n: nat, m: nat) {
    && Leaves(p.g, n) && m <= |p.db.commits|
    && Boots(s, apply, p.db.snapshot, Left(p.g, n)) == Recovered(StateAfter(apply, init, p.db.commits[..m]))
  }

  lemma ReadsBack<S>(apply: Apply<S>, init: S, s: Sums, p: Both<S>, n: nat, m: nat, image: seq<seq<byte>>)
    requires R.BootsTo(s, apply, init, p.db, n, m) && image == Image(s, p.db.closed, p.db.open, n)
    requires Leaves(p.g, n) && image == Left(p.g, n)
    ensures Restores(apply, init, s, p, n, m)
  {}

  lemma CrashRestores<S>(apply: Apply<S>, init: S, s: Sums, scheme: byte, p: Both<S>, n: nat) returns (m: nat)
    requires R.Inv(apply, init, scheme, p.db) && R.Crash(s, p.db, n) && R.MarkerKept(s, p.db, n)
    requires Leaves(p.g, n) && Image(s, p.db.closed, p.db.open, n) == Left(p.g, n)
    ensures p.db.acked <= m && Restores(apply, init, s, p, n, m)
  {
    R.CrashReplays(s, apply, init, scheme, p.db, n);
    m := R.InvRecovers(s, apply, init, scheme, p.db, n);
    ReadsBack(apply, init, s, p, n, m, Image(s, p.db.closed, p.db.open, n));
  }

  /**
   * End to end: over every run of threads, checkpoints and rotations, and whatever bytes a crash
   * leaves between the synced and the written ones, booting from the chunk files yields the state
   * after the first `m` commits, and `m` covers every commit whose ticket `wait_flushed` answered.
   */
  lemma AnsweredCommitsSurvive<S(!new)>(
      apply: Apply<S>, init: S, s: Sums, scheme: byte, states: seq<Both<S>>, moves: seq<Move>, i: nat, n: nat)
    requires Run(apply, init, s, scheme, states, moves) && i <= |moves| && Leaves(states[i].g, n)
    requires AllV6(states[i].db.open) && R.MarkerKept(s, states[i].db, n)
    ensures V6Log(states[i].db) && states[i].g.acked <= |R.Log(states[i].db)|
    ensures exists m ::
      CommitsIn(R.Log(states[i].db)[..states[i].g.acked]) <= m && Restores(apply, init, s, states[i], n, m)
  {
    RunInv(apply, init, s, scheme, states, moves, i);
    CrashLinks(s, states[i], n);
    var m := CrashRestores(apply, init, s, scheme, states[i], n);
  }
}
