/** The hash-chained audit log: append, verify, and its file format. */
module AuditLog {
  import opened Bytes

  type Digest = s: seq<byte> | |s| == 32
    witness [0, 0, 0, 0, 0, 0, 0, 0, 0, 0, 0, 0, 0, 0, 0, 0, 0, 0, 0, 0, 0, 0, 0, 0, 0, 0, 0, 0, 0, 0, 0, 0]

  const ZERO: Digest :=
    [0, 0, 0, 0, 0, 0, 0, 0, 0, 0, 0, 0, 0, 0, 0, 0, 0, 0, 0, 0, 0, 0, 0, 0, 0, 0, 0, 0, 0, 0, 0, 0]

  type U64 = n: int | 0 <= n < 0x1_0000_0000_0000_0000

  /** `sql` is the text as UTF-8 bytes. */
  datatype Entry = Entry(seqNo: U64, ts: U64, prev: Digest, hash: Digest, sql: seq<byte>)

  datatype Error =
    | Truncated
    | BadHeader
    | BrokenChain(seqNo: U64)
    | HashMismatch(seqNo: U64)
    | InvalidUtf8(seqNo: U64)

  datatype Result<T> = Ok(value: T) | Err(error: Error)

  type Hash = seq<byte> -> Digest

  // ---------------------------------------------------------------- the chain

  /** The bytes an entry's hash is taken over. */
  function Hashed(seqNo: U64, ts: U64, prev: Digest, sql: seq<byte>): seq<byte> {
    LE(seqNo, 8) + LE(ts, 8) + prev + sql
  }

  function HashedBy(e: Entry): seq<byte> {
    Hashed(e.seqNo, e.ts, e.prev, e.sql)
  }

  function PrevOf(es: seq<Entry>, i: nat): Digest
    requires i <= |es|
  {
    if i == 0 then ZERO else es[i - 1].hash
  }

  predicate Link(h: Hash, es: seq<Entry>, i: nat)
    requires i < |es|
  {
    es[i].seqNo == i && es[i].prev == PrevOf(es, i) && es[i].hash == h(HashedBy(es[i]))
  }

  /** Numbered from zero, each entry holding its predecessor's hash and its own. */
  predicate Chain(h: Hash, es: seq<Entry>) {
    forall i :: 0 <= i < |es| ==> Link(h, es, i)
  }

  /** What `verify` answers from entry `i` on: the first fault, or none. */
  function Verified(h: Hash, es: seq<Entry>, i: nat): (r: Result<()>)
    requires i <= |es|
    ensures r.Ok? <==> forall j :: i <= j < |es| ==> Link(h, es, j)
    decreases |es| - i
  {
    if i == |es| then Ok(())
    else if !Link(h, es, i) then
      Err(if es[i].seqNo != i || es[i].prev != PrevOf(es, i) then BrokenChain(es[i].seqNo)
          else HashMismatch(es[i].seqNo))
    else Verified(h, es, i + 1)
  }

  lemma ChainPrefix(h: Hash, es: seq<Entry>, i: nat)
    requires i <= |es|
    ensures Chain(h, es[..i]) <==> forall j :: 0 <= j < i ==> Link(h, es, j)
  {
    assert forall j :: 0 <= j < i ==> (Link(h, es[..i], j) <==> Link(h, es, j));
  }

  lemma ChainPush(h: Hash, es: seq<Entry>, e: Entry)
    requires Chain(h, es) && e.seqNo == |es| && e.prev == PrevOf(es, |es|) && e.hash == h(HashedBy(e))
    ensures Chain(h, es + [e])
  {
    var all := es + [e];
    forall i | 0 <= i < |all| ensures Link(h, all, i) {
      if i < |es| { assert Link(h, es, i); }
    }
  }

  class Log {
    var entries: seq<Entry>

    constructor ()
      ensures entries == []
    {
      entries := [];
    }

    /** The number of entries is a 64-bit count. */
    method Append(h: Hash, sql: seq<byte>, ts: U64) returns (hash: Digest)
      requires |entries| < U64_LIMIT
      modifies this
      ensures |entries| == |old(entries)| + 1 && entries[..|old(entries)|] == old(entries)
      ensures var e := entries[|old(entries)|];
              e.sql == sql && e.ts == ts && e.hash == hash
      ensures Chain(h, old(entries)) ==> Chain(h, entries)
    {
      var seqNo := |entries|;
      var prev := if entries == [] then ZERO else entries[|entries| - 1].hash;
      hash := h(Hashed(seqNo, ts, prev, sql));
      var entry := Entry(seqNo, ts, prev, hash, sql);
      if Chain(h, entries) { ChainPush(h, entries, entry); }
      entries := entries + [entry];
    }

    method Verify(h: Hash) returns (r: Result<()>)
      ensures r == Verified(h, entries, 0)
      ensures r.Ok? <==> Chain(h, entries)
    {
      r := CheckChain(h, entries);
    }

    method Serialize() returns (out: seq<byte>)
      requires forall e :: e in entries ==> |e.sql| < U32_LIMIT
      ensures out == Serialized(entries)
    {
      out := HEADER;
      var i := 0;
      while i < |entries|
        invariant 0 <= i <= |entries|
        invariant out + Encoded(entries[i..]) == Serialized(entries)
      {
        var rest := entries[i..];
        assert rest[0] == entries[i] && rest[1..] == entries[i + 1..];
        Assoc(out, EncodeEntry(entries[i]), Encoded(entries[i + 1..]));
        out := out + EncodeEntry(entries[i]);
        i := i + 1;
      }
      assert entries[i..] == [];
    }
  }

  lemma Assoc(a: seq<byte>, b: seq<byte>, c: seq<byte>)
    ensures (a + b) + c == a + (b + c)
  {}

  method CheckChain(h: Hash, entries: seq<Entry>) returns (r: Result<()>)
    ensures r == Verified(h, entries, 0)
    ensures r.Ok? <==> Chain(h, entries)
  {
    var i := 0;
    while i < |entries|
      invariant 0 <= i <= |entries|
      invariant Verified(h, entries, 0) == Verified(h, entries, i)
    {
      var e := entries[i];
      if e.seqNo != i {
        return Err(BrokenChain(e.seqNo));
      }
      var expected := if i == 0 then ZERO else entries[i - 1].hash;
      if e.prev != expected {
        return Err(BrokenChain(e.seqNo));
      }
      if h(HashedBy(e)) != e.hash {
        return Err(HashMismatch(e.seqNo));
      }
      i := i + 1;
    }
    return Ok(());
  }

  // ---------------------------------------------------------------- the file

  /** "SPGAUDIT" and the version. */
  const HEADER: seq<byte> := [0x53, 0x50, 0x47, 0x41, 0x55, 0x44, 0x49, 0x54, 1]

  function Fixed(e: Entry): (s: seq<byte>)
    ensures |s| == 84
  {
    LE(e.seqNo, 8) + LE(e.ts, 8) + e.prev + e.hash + LE(|e.sql|, 4)
  }

  function EncodeEntry(e: Entry): (s: seq<byte>)
    ensures |s| == 84 + |e.sql|
  {
    Fixed(e) + e.sql
  }

  function Encoded(es: seq<Entry>): seq<byte> {
    if es == [] then [] else EncodeEntry(es[0]) + Encoded(es[1..])
  }

  function Serialized(es: seq<Entry>): seq<byte> {
    HEADER + Encoded(es)
  }
}
