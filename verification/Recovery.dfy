/** Boot recovery: the snapshot, the highest marker LSN as floor, and replay of records above it. */
module Recovery {
  import opened Bytes
  import opened WalFormat
  import opened WalCodec
  import opened Wrappers

  /** The engine: how a state changes when one committed record is applied. */
  type Apply<!S> = (S, byte, seq<byte>) -> S

  predicate IsMarker(t: byte) {
    t == CHECKPOINT_MARKER
  }

  predicate IsLsnCommit(t: byte) {
    t == AUTO_COMMIT || t == TX_COMMIT || t == ROW_REDO
  }

  // ---------------------------------------------------------------- what recovery computes

  function MaxLsn(a: nat, b: nat): nat {
    if a < b then b else a
  }

  /** The highest LSN a checkpoint marker carries. */
  function Floor(records: seq<WalRecord>): nat {
    if records == [] then 0
    else
      var r := records[|records| - 1];
      var rest := Floor(records[..|records| - 1]);
      if IsMarker(r.typeByte) && r.commitLsn.Some? then MaxLsn(rest, r.commitLsn.value) else rest
  }

  function ReplayOne<S>(apply: Apply<S>, st: S, r: WalRecord, floor: nat): S {
    if r.typeByte == DURABILITY_CHECKPOINT || IsMarker(r.typeByte) then st
    else if IsLsnCommit(r.typeByte) && r.commitLsn.Some? && r.commitLsn.value <= floor then st
    else apply(st, r.typeByte, r.sql)
  }

  function Replay<S>(apply: Apply<S>, st: S, records: seq<WalRecord>, floor: nat): S {
    if records == [] then st
    else ReplayOne(apply, Replay(apply, st, records[..|records| - 1], floor), records[|records| - 1], floor)
  }

  datatype Boot<S> = Recovered(state: S) | Refused(error: ParseError)

  /** Chunks that do not parse contribute no marker. */
  function FloorOfChunks(s: Sums, chunks: seq<seq<byte>>): nat {
    if chunks == [] then 0
    else
      var rest := FloorOfChunks(s, chunks[..|chunks| - 1]);
      match ParseFrom(s, chunks[|chunks| - 1], 0)
      case Records(rs) => MaxLsn(rest, Floor(rs))
      case Corrupt(_) => rest
  }

  function ReplayParsed<S>(apply: Apply<S>, st: S, parsed: Parse, floor: nat): Boot<S> {
    match parsed
    case Corrupt(e) => Refused(e)
    case Records(rs) => Recovered(Replay(apply, st, rs, floor))
  }

  function ReplayChunks<S>(s: Sums, apply: Apply<S>, st: S, chunks: seq<seq<byte>>, floor: nat): Boot<S> {
    if chunks == [] then Recovered(st)
    else
      match ReplayChunks(s, apply, st, chunks[..|chunks| - 1], floor)
      case Refused(e) => Refused(e)
      case Recovered(mid) =>
        ReplayParsed(apply, mid, ParseFrom(s, chunks[|chunks| - 1], 0), floor)
  }

  function Boots<S>(s: Sums, apply: Apply<S>, snapshot: S, chunks: seq<seq<byte>>): Boot<S> {
    ReplayChunks(s, apply, snapshot, chunks, FloorOfChunks(s, chunks))
  }

  // ---------------------------------------------------------------- the two passes of open_path

  method ScanFloor(s: Sums, chunks: seq<seq<byte>>) returns (snapshotLsn: nat)
    ensures snapshotLsn == FloorOfChunks(s, chunks)
  {
    snapshotLsn := 0;
    var i := 0;
    while i < |chunks|
      invariant 0 <= i <= |chunks|
      invariant snapshotLsn == FloorOfChunks(s, chunks[..i])
    {
      var parsed := ParseWalRecords(s, chunks[i]);
      if parsed.Records? {
        var rs := parsed.records;
        var j := 0;
        ghost var before := snapshotLsn;
        while j < |rs|
          invariant 0 <= j <= |rs|
          invariant snapshotLsn == MaxLsn(before, Floor(rs[..j]))
        {
          var r := rs[j];
          if IsMarker(r.typeByte) && r.commitLsn.Some? && r.commitLsn.value > snapshotLsn {
            snapshotLsn := r.commitLsn.value;
          }
          assert rs[..j + 1][..j] == rs[..j];
          j := j + 1;
        }
        assert rs[..|rs|] == rs;
      }
      assert chunks[..i + 1][..i] == chunks[..i];
      i := i + 1;
    }
    assert chunks[..|chunks|] == chunks;
  }

  method ReplayFiltered<S>(s: Sums, apply: Apply<S>, st: S, wal: seq<byte>, floor: nat) returns (r: Boot<S>)
    ensures r == ReplayParsed(apply, st, ParseFrom(s, wal, 0), floor)
  {
    var parsed := ParseWalRecords(s, wal);
    match parsed
    case Corrupt(e) =>
      return Refused(e);
    case Records(rs) =>
      var cur := st;
      var i := 0;
      while i < |rs|
        invariant 0 <= i <= |rs|
        invariant cur == Replay(apply, st, rs[..i], floor)
      {
        var rec := rs[i];
        assert rs[..i + 1][..i] == rs[..i];
        if rec.typeByte != DURABILITY_CHECKPOINT && !IsMarker(rec.typeByte) {
          if !(IsLsnCommit(rec.typeByte) && rec.commitLsn.Some? && rec.commitLsn.value <= floor) {
            cur := apply(cur, rec.typeByte, rec.sql);
          }
        }
        i := i + 1;
      }
      assert rs[..|rs|] == rs;
      return Recovered(cur);
  }

  lemma EmptyChunk<S>(s: Sums, apply: Apply<S>, st: S, floor: nat)
    ensures ParseFrom(s, [], 0) == Records([]) && Replay(apply, st, [], floor) == st
  {
  }

  method OpenPath<S>(s: Sums, apply: Apply<S>, snapshot: S, chunks: seq<seq<byte>>) returns (r: Boot<S>)
    ensures r == Boots(s, apply, snapshot, chunks)
  {
    var floor := ScanFloor(s, chunks);
    var st := snapshot;
    var i := 0;
    while i < |chunks|
      invariant 0 <= i <= |chunks|
      invariant ReplayChunks(s, apply, snapshot, chunks[..i], floor) == Recovered(st)
    {
      assert chunks[..i + 1][..i] == chunks[..i];
      if chunks[i] == [] {
        EmptyChunk(s, apply, st, floor);
      } else {
        var one := ReplayFiltered(s, apply, st, chunks[i], floor);
        match one
        case Refused(e) =>
          RefusalPersists(s, apply, snapshot, chunks, i + 1, floor);
          return one;
        case Recovered(next) =>
          st := next;
      }
      i := i + 1;
    }
    assert chunks[..|chunks|] == chunks;
    return Recovered(st);
  }

  lemma {:induction false} RefusalPersists<S>(
      s: Sums, apply: Apply<S>, st: S, chunks: seq<seq<byte>>, i: nat, floor: nat)
    requires i <= |chunks| && ReplayChunks(s, apply, st, chunks[..i], floor).Refused?
    ensures ReplayChunks(s, apply, st, chunks, floor) == ReplayChunks(s, apply, st, chunks[..i], floor)
    decreases |chunks| - i
  {
    if i == |chunks| {
      assert chunks[..i] == chunks;
    } else {
      assert chunks[..i + 1][..i] == chunks[..i];
      RefusalPersists(s, apply, st, chunks, i + 1, floor);
    }
  }
}
