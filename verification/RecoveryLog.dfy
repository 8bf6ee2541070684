/** From durable bytes to committed history: what replaying a kept log prefix computes. */
module RecoveryLog {
  import opened Bytes
  import opened WalFormat
  import opened WalCodec
  import opened Recovery
  import opened Wrappers

  // ---------------------------------------------------------------- records instead of bytes

  predicate AllV6(rs: seq<Rec>) {
    forall i :: 0 <= i < |rs| ==> rs[i].V6? && Writable(rs[i])
  }

  function FloorR(rs: seq<Rec>): nat
    requires AllV6(rs)
  {
    if rs == [] then 0
    else
      var r := rs[|rs| - 1];
      var rest := FloorR(rs[..|rs| - 1]);
      if IsMarker(r.typeByte) then MaxLsn(rest, r.lsn) else rest
  }

  function ReplayR<S>(apply: Apply<S>, st: S, rs: seq<Rec>, floor: nat): S
    requires AllV6(rs)
  {
    if rs == [] then st
    else
      var r := rs[|rs| - 1];
      ReplayOne(apply, ReplayR(apply, st, rs[..|rs| - 1], floor), View(r, 0), floor)
  }

  predicate Matches(vs: seq<WalRecord>, rs: seq<Rec>) {
    |vs| == |rs| && forall i :: 0 <= i < |vs| ==> vs[i] == View(rs[i], vs[i].offset)
  }

  lemma {:induction false} FloorMatches(vs: seq<WalRecord>, rs: seq<Rec>)
    requires AllV6(rs) && Matches(vs, rs)
    ensures Floor(vs) == FloorR(rs)
    decreases |rs|
  {
    if rs != [] {
      FloorMatches(vs[..|vs| - 1], rs[..|rs| - 1]);
    }
  }

  lemma {:induction false} ReplayMatches<S>(apply: Apply<S>, st: S, vs: seq<WalRecord>, rs: seq<Rec>, floor: nat)
    requires AllV6(rs) && Matches(vs, rs)
    ensures Replay(apply, st, vs, floor) == ReplayR(apply, st, rs, floor)
    decreases |rs|
  {
    if rs != [] {
      ReplayMatches(apply, st, vs[..|vs| - 1], rs[..|rs| - 1], floor);
    }
  }

  /** How many records of `rs` lie wholly inside the first `n` bytes. */
  function Kept(rs: seq<Rec>, n: nat): nat {
    |Inside(rs, n, 0)|
  }

  lemma {:induction false} InsideLength(rs: seq<Rec>, n: nat, base: nat, base': nat)
    ensures |Inside(rs, n, base)| == |Inside(rs, n, base')| <= |rs|
    decreases |rs|
  {
    if rs != [] && Size(rs[0]) <= n {
      var k := Size(rs[0]);
      InsideLength(rs[1..], n - k, base + k, base' + k);
    }
  }

  lemma MatchesCons(v: WalRecord, vs: seq<WalRecord>, rs: seq<Rec>, k: nat)
    requires rs != [] && v == View(rs[0], v.offset) && k < |rs| && Matches(vs, rs[1..][..k])
    ensures Matches([v] + vs, rs[..k + 1])
  {
    assert rs[..k + 1] == [rs[0]] + rs[1..][..k];
  }

  lemma {:induction false} InsideViews(rs: seq<Rec>, n: nat, base: nat) returns (vs: seq<WalRecord>)
    ensures vs == Inside(rs, n, base) && |vs| <= |rs|
    ensures Matches(vs, rs[..|vs|])
    decreases |rs|
  {
    vs := [];
    if rs != [] {
      var k, rest := Size(rs[0]), rs[1..];
      InsideStep(rs, n, base, k, rest);
      if k <= n {
        var more := InsideViews(rest, n - k, base + k);
        MatchesCons(View(rs[0], base), more, rs, |more|);
        vs := [View(rs[0], base)] + more;
      }
    }
  }

  lemma InsideMatches(rs: seq<Rec>, n: nat, base: nat)
    ensures |Inside(rs, n, base)| == Kept(rs, n) <= |rs|
    ensures Matches(Inside(rs, n, base), rs[..Kept(rs, n)])
  {
    InsideLength(rs, n, base, 0);
    var vs := InsideViews(rs, n, base);
  }

  lemma {:induction false} KeptAll(s: Sums, rs: seq<Rec>)
    requires AllWritable(rs)
    ensures Kept(rs, |EncodeAll(s, rs)|) == |rs|
    decreases |rs|
  {
    if rs != [] {
      var rest, k, n := rs[1..], Size(rs[0]), |EncodeAll(s, rs)|;
      KeptAll(s, rest);
      AllCons(s, rs, Encode(s, rs[0]), rest);
      SizeIs(s, rs[0]);
      InsideStep(rs, n, 0, k, rest);
      InsideLength(rest, n - k, 0, k);
    }
  }

  // ---------------------------------------------------------------- chunks

  function Concat(closed: seq<seq<Rec>>): seq<Rec> {
    if closed == [] then [] else Concat(closed[..|closed| - 1]) + closed[|closed| - 1]
  }

  predicate AllV6Chunks(closed: seq<seq<Rec>>) {
    forall i :: 0 <= i < |closed| ==> AllV6(closed[i])
  }

  lemma {:induction false} ConcatV6(closed: seq<seq<Rec>>)
    requires AllV6Chunks(closed)
    ensures AllV6(Concat(closed))
  {
    if closed != [] {
      ConcatV6(closed[..|closed| - 1]);
    }
  }

  function ChunkBytes(s: Sums, closed: seq<seq<Rec>>): seq<seq<byte>>
    requires AllV6Chunks(closed)
  {
    if closed == [] then []
    else ChunkBytes(s, closed[..|closed| - 1]) + [EncodeAll(s, closed[|closed| - 1])]
  }

  lemma AppendV6(a: seq<Rec>, b: seq<Rec>)
    requires AllV6(a) && AllV6(b)
    ensures AllV6(a + b)
  {
  }

  lemma {:induction false} FloorConcat(a: seq<Rec>, b: seq<Rec>)
    requires AllV6(a) && AllV6(b)
    ensures AllV6(a + b) && FloorR(a + b) == MaxLsn(FloorR(a), FloorR(b))
    decreases |b|
  {
    AppendV6(a, b);
    if b == [] {
      assert a + b == a;
    } else {
      assert (a + b)[..|a + b| - 1] == a + b[..|b| - 1];
      FloorConcat(a, b[..|b| - 1]);
    }
  }

  lemma {:induction false} ReplayConcat<S>(apply: Apply<S>, st: S, a: seq<Rec>, b: seq<Rec>, floor: nat)
    requires AllV6(a) && AllV6(b)
    ensures AllV6(a + b)
    ensures ReplayR(apply, st, a + b, floor) == ReplayR(apply, ReplayR(apply, st, a, floor), b, floor)
    decreases |b|
  {
    AppendV6(a, b);
    if b == [] {
      assert a + b == a;
    } else {
      assert (a + b)[..|a + b| - 1] == a + b[..|b| - 1];
      ReplayConcat(apply, st, a, b[..|b| - 1], floor);
    }
  }

  /** A chunk cut after `n` bytes contributes its kept records and is never refused. */
  lemma CutChunk<S>(s: Sums, apply: Apply<S>, st: S, rs: seq<Rec>, n: nat, floor: nat)
    requires AllV6(rs) && n <= |EncodeAll(s, rs)|
    ensures Kept(rs, n) <= |rs|
    ensures var p := ParseFrom(s, EncodeAll(s, rs)[..n], 0);
      p.Records? && Floor(p.records) == FloorR(rs[..Kept(rs, n)])
      && Replay(apply, st, p.records, floor) == ReplayR(apply, st, rs[..Kept(rs, n)], floor)
  {
    TornTail(s, rs, n, 0);
    InsideMatches(rs, n, 0);
    var vs := Inside(rs, n, 0);
    FloorMatches(vs, rs[..|vs|]);
    ReplayMatches(apply, st, vs, rs[..|vs|], floor);
  }

  lemma WholeChunk<S>(s: Sums, apply: Apply<S>, st: S, rs: seq<Rec>, floor: nat)
    requires AllV6(rs)
    ensures var p := ParseFrom(s, EncodeAll(s, rs), 0);
      p.Records? && Floor(p.records) == FloorR(rs) && Replay(apply, st, p.records, floor) == ReplayR(apply, st, rs, floor)
  {
    var n := |EncodeAll(s, rs)|;
    CutChunk(s, apply, st, rs, n, floor);
    KeptAll(s, rs);
    assert EncodeAll(s, rs)[..n] == EncodeAll(s, rs);
    assert rs[..|rs|] == rs;
  }

  lemma {:induction false} ClosedChunks<S>(s: Sums, apply: Apply<S>, st: S, closed: seq<seq<Rec>>, floor: nat)
    requires AllV6Chunks(closed)
    ensures AllV6(Concat(closed))
    ensures FloorOfChunks(s, ChunkBytes(s, closed)) == FloorR(Concat(closed))
    ensures ReplayChunks(s, apply, st, ChunkBytes(s, closed), floor) == Recovered(ReplayR(apply, st, Concat(closed), floor))
    decreases |closed|
  {
    ConcatV6(closed);
    if closed != [] {
      var front, last := closed[..|closed| - 1], closed[|closed| - 1];
      ClosedChunks(s, apply, st, front, floor);
      WholeChunk(s, apply, ReplayR(apply, st, Concat(front), floor), last, floor);
      SnocChunks(s, apply, st, ChunkBytes(s, front), EncodeAll(s, last), floor);
      FloorConcat(Concat(front), last);
      ReplayConcat(apply, st, Concat(front), last, floor);
    }
  }

  lemma SnocChunks<S>(s: Sums, apply: Apply<S>, st: S, chunks: seq<seq<byte>>, last: seq<byte>, floor: nat)
    requires ParseFrom(s, last, 0).Records?
    ensures FloorOfChunks(s, chunks + [last]) == MaxLsn(FloorOfChunks(s, chunks), Floor(ParseFrom(s, last, 0).records))
    ensures ReplayChunks(s, apply, st, chunks, floor).Recovered? ==>
      ReplayChunks(s, apply, st, chunks + [last], floor)
      == Recovered(Replay(apply, ReplayChunks(s, apply, st, chunks, floor).state, ParseFrom(s, last, 0).records, floor))
  {
    assert (chunks + [last])[..|chunks|] == chunks;
  }

  /** The chunk files a crash leaves: closed ones whole, the open one cut after `n` bytes. */
  function Image(s: Sums, closed: seq<seq<Rec>>, open: seq<Rec>, n: nat): seq<seq<byte>>
    requires AllV6Chunks(closed) && AllV6(open) && n <= |EncodeAll(s, open)|
  {
    ChunkBytes(s, closed) + [EncodeAll(s, open)[..n]]
  }

  /** The records recovery sees. */
  function Survivors(s: Sums, closed: seq<seq<Rec>>, open: seq<Rec>, n: nat): seq<Rec>
    requires AllV6(open)
  {
    InsideMatches(open, n, 0);
    Concat(closed) + open[..Kept(open, n)]
  }

  lemma BootsFromImage<S>(s: Sums, apply: Apply<S>, snapshot: S, closed: seq<seq<Rec>>, open: seq<Rec>, n: nat)
    requires AllV6Chunks(closed) && AllV6(open) && n <= |EncodeAll(s, open)|
    ensures var kept := Survivors(s, closed, open, n);
      AllV6(kept) && Boots(s, apply, snapshot, Image(s, closed, open, n))
                     == Recovered(ReplayR(apply, snapshot, kept, FloorR(kept)))
  {
    InsideMatches(open, n, 0);
    ConcatV6(closed);
    var tail := open[..Kept(open, n)];
    var kept := Concat(closed) + tail;
    FloorConcat(Concat(closed), tail);
    var floor := FloorR(kept);
    ClosedChunks(s, apply, snapshot, closed, floor);
    CutChunk(s, apply, ReplayR(apply, snapshot, Concat(closed), floor), open, n, floor);
    SnocChunks(s, apply, snapshot, ChunkBytes(s, closed), EncodeAll(s, open)[..n], floor);
    ReplayConcat(apply, snapshot, Concat(closed), tail, floor);
  }
}
