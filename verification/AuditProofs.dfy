/** Tamper evidence of the chain and canonicity of its file format. */
module AuditProofs {
  import opened Bytes
  import opened AuditLog

  // ---------------------------------------------------------------- tamper evidence

  lemma HashedParts(seqNo: U64, ts: U64, prev: Digest, sql: seq<byte>)
    ensures var b := Hashed(seqNo, ts, prev, sql);
            b[..8] == LE(seqNo, 8) && b[8..16] == LE(ts, 8) && b[16..48] == prev && b[48..] == sql
  {}

  /** The hashed bytes determine every field they cover. */
  lemma HashedInjective(a: Entry, b: Entry)
    requires HashedBy(a) == HashedBy(b)
    ensures a.seqNo == b.seqNo && a.ts == b.ts && a.prev == b.prev && a.sql == b.sql
  {
    HashedParts(a.seqNo, a.ts, a.prev, a.sql);
    HashedParts(b.seqNo, b.ts, b.prev, b.sql);
    FieldWidths();
    LERoundTrip(a.seqNo, 8);
    LERoundTrip(b.seqNo, 8);
    LERoundTrip(a.ts, 8);
    LERoundTrip(b.ts, 8);
  }

  lemma ChainFront(h: Hash, es: seq<Entry>)
    requires es != [] && Chain(h, es)
    ensures Chain(h, es[..|es| - 1]) && Link(h, es, |es| - 1)
  {
    ChainPrefix(h, es, |es| - 1);
  }

  /**
   * Two verifying logs that end in the same hash are the same log, or walking
   * back from their ends in step meets two entries whose hashed bytes differ
   * and have one hash, with equal entries after them.
   */
  lemma {:induction false} TamperEvident(h: Hash, a: seq<Entry>, b: seq<Entry>) returns (i: nat, j: nat)
    requires a != [] && b != [] && Chain(h, a) && Chain(h, b)
    requires a[|a| - 1].hash == b[|b| - 1].hash
    ensures a == b || (i < |a| && j < |b| && Collide(h, a[i], b[j]) && a[i + 1..] == b[j + 1..])
    decreases |a|
  {
    var m, n := |a| - 1, |b| - 1;
    ChainFront(h, a);
    ChainFront(h, b);
    i, j := m, n;
    if HashedBy(a[m]) == HashedBy(b[n]) {
      HashedInjective(a[m], b[n]);
      assert a[m] == b[n] && m == n;
      if m > 0 {
        assert a[..m][m - 1].hash == b[..n][n - 1].hash;
        i, j := TamperEvident(h, a[..m], b[..n]);
      }
      Extend(a, b, m, i, j);
    }
  }

  // Two inputs of the hash that differ and have one digest.
  predicate Collide(h: Hash, x: Entry, y: Entry) {
    HashedBy(x) != HashedBy(y) && h(HashedBy(x)) == h(HashedBy(y))
  }

  // Equal last entries carry what holds of the fronts over to the logs.
  lemma Extend(a: seq<Entry>, b: seq<Entry>, m: nat, i: nat, j: nat)
    requires |a| == |b| == m + 1 && a[m] == b[m]
    ensures a[..m] == b[..m] ==> a == b
    ensures i < m && j < m && a[..m][i + 1..] == b[..m][j + 1..] ==> a[i + 1..] == b[j + 1..]
  {
    assert a == a[..m] + [a[m]] && b == b[..m] + [b[m]];
    if i < m && j < m && a[..m][i + 1..] == b[..m][j + 1..] {
      assert a[i + 1..] == a[..m][i + 1..] + [a[m]];
      assert b[j + 1..] == b[..m][j + 1..] + [b[m]];
    }
  }

  /**
   * Whatever verifying log replaces `a`, its last hash differs, unless some
   * entry of the one collides with an entry of the other.
   */
  lemma ChangeShows(h: Hash, a: seq<Entry>, b: seq<Entry>)
    requires a != [] && b != [] && a != b && Chain(h, a) && Chain(h, b)
    requires forall i, j | 0 <= i < |a| && 0 <= j < |b| :: !Collide(h, a[i], b[j])
    ensures a[|a| - 1].hash != b[|b| - 1].hash
  {
    if a[|a| - 1].hash == b[|b| - 1].hash {
      var i, j := TamperEvident(h, a, b);
    }
  }

  // ---------------------------------------------------------------- reading the file

  type Utf8 = seq<byte> -> bool

  datatype Read = Read(entry: Entry, len: nat)

  /** The entry at the head of `t`. */
  function DecodeEntry(utf8: Utf8, t: seq<byte>): (r: Result<Read>)
    ensures r.Ok? ==> 84 <= r.value.len <= |t|
  {
    if |t| < 84 then Err(Truncated)
    else
      var seqNo, ts := Field(t[..8]), Field(t[8..16]);
      var len := FromLE(t[80..84]);
      if |t| < 84 + len then Err(Truncated)
      else if !utf8(t[84..84 + len]) then Err(InvalidUtf8(seqNo))
      else Ok(Read(Entry(seqNo, ts, t[16..48], t[48..80], t[84..84 + len]), 84 + len))
  }

  function Field(s: seq<byte>): U64
    requires |s| == 8
  {
    FromLEBound(s);
    FieldWidths();
    FromLE(s)
  }

  function DecodeAll(utf8: Utf8, t: seq<byte>, before: seq<Entry>): Result<seq<Entry>>
    decreases |t|
  {
    if t == [] then Ok(before)
    else
      match DecodeEntry(utf8, t)
      case Err(error) => Err(error)
      case Ok(read) => DecodeAll(utf8, t[read.len..], before + [read.entry])
  }

  /** An entry as the types and the format allow it. */
  predicate Writable(utf8: Utf8, e: Entry) {
    |e.sql| < U32_LIMIT && utf8(e.sql)
  }

  predicate AllWritable(utf8: Utf8, es: seq<Entry>) {
    forall i :: 0 <= i < |es| ==> Writable(utf8, es[i])
  }

  function Deserialized(h: Hash, utf8: Utf8, buf: seq<byte>): Result<seq<Entry>> {
    if |buf| < 9 || buf[..9] != HEADER then Err(BadHeader)
    else
      match DecodeAll(utf8, buf[9..], [])
      case Err(error) => Err(error)
      case Ok(es) =>
        var ok := Verified(h, es, 0);
        if ok.Ok? then Ok(es) else Err(ok.error)
  }

  method Deserialize(h: Hash, utf8: Utf8, buf: seq<byte>) returns (r: Result<seq<Entry>>)
    ensures r == Deserialized(h, utf8, buf)
  {
    if |buf| < 9 {
      return Err(BadHeader);
    }
    if buf[..8] != HEADER[..8] {
      assert buf[..9][..8] != HEADER[..8];
      return Err(BadHeader);
    }
    if buf[8] != HEADER[8] {
      return Err(BadHeader);
    }
    assert buf[..9] == buf[..8] + [buf[8]] && HEADER == HEADER[..8] + [HEADER[8]];
    var log: seq<Entry> := [];
    var off := 9;
    while off < |buf|
      invariant 9 <= off <= |buf|
      invariant DecodeAll(utf8, buf[off..], log) == DecodeAll(utf8, buf[9..], [])
    {
      var next := DecodeEntry(utf8, buf[off..]);
      if next.Err? {
        return Err(next.error);
      }
      assert buf[off..][next.value.len..] == buf[off + next.value.len..];
      log := log + [next.value.entry];
      off := off + next.value.len;
    }
    assert buf[off..] == [];
    var ok := CheckChain(h, log);
    r := if ok.Ok? then Ok(log) else Err(ok.error);
  }

  // ---------------------------------------------------------------- canonicity

  lemma Cut5(a: seq<byte>, b: seq<byte>, c: seq<byte>, d: seq<byte>, f: seq<byte>, rest: seq<byte>, t: seq<byte>)
    requires |a| == 8 && |b| == 8 && |c| == 32 && |d| == 32 && |f| == 4 && t == a + b + c + d + f + rest
    ensures |t| == 84 + |rest|
    ensures t[..8] == a && t[8..16] == b && t[16..48] == c && t[48..80] == d && t[80..84] == f && t[84..] == rest
  {}

  lemma Join5(t: seq<byte>)
    requires |t| >= 84
    ensures t == t[..8] + t[8..16] + t[16..48] + t[48..80] + t[80..84] + t[84..]
  {}

  /** Reading back what was written, whatever follows it. */
  lemma DecodeEncoded(utf8: Utf8, e: Entry, rest: seq<byte>)
    requires Writable(utf8, e)
    ensures DecodeEntry(utf8, EncodeEntry(e) + rest) == Ok(Read(e, |EncodeEntry(e)|))
  {
    var t := EncodeEntry(e) + rest;
    var f := LE(|e.sql|, 4);
    assert t == LE(e.seqNo, 8) + LE(e.ts, 8) + e.prev + e.hash + f + (e.sql + rest);
    Cut5(LE(e.seqNo, 8), LE(e.ts, 8), e.prev, e.hash, f, e.sql + rest, t);
    FieldWidths();
    LERoundTrip(e.seqNo, 8);
    LERoundTrip(e.ts, 8);
    LERoundTrip(|e.sql|, 4);
    assert t[84..84 + |e.sql|] == t[84..][..|e.sql|];
    assert (e.sql + rest)[..|e.sql|] == e.sql;
  }

  /** Only written entries can be read. */
  lemma EncodeDecoded(utf8: Utf8, t: seq<byte>)
    requires DecodeEntry(utf8, t).Ok?
    ensures var read := DecodeEntry(utf8, t).value;
            Writable(utf8, read.entry) && t[..read.len] == EncodeEntry(read.entry)
  {
    var read := DecodeEntry(utf8, t).value;
    var e, u := read.entry, t[..read.len];
    FieldWidths();
    FromLEBound(t[80..84]);
    LEFromLE(t[..8]);
    LEFromLE(t[8..16]);
    LEFromLE(t[80..84]);
    Join5(u);
    assert u[..8] == t[..8] && u[8..16] == t[8..16] && u[16..48] == t[16..48] && u[48..80] == t[48..80];
    assert u[80..84] == t[80..84] && u[84..] == t[84..read.len];
    assert LE(|e.sql|, 4) == t[80..84];
  }

  lemma Rejoin(before: seq<Entry>, e: Entry, rest: seq<Entry>, es: seq<Entry>)
    requires es == [e] + rest
    ensures (before + [e]) + rest == before + es
  {}

  lemma {:induction false} DecodeAllEncoded(utf8: Utf8, es: seq<Entry>, before: seq<Entry>)
    requires AllWritable(utf8, es)
    ensures DecodeAll(utf8, Encoded(es), before) == Ok(before + es)
    decreases |es|
  {
    if es == [] {
      assert before + es == before;
    } else {
      var e, rest := es[0], es[1..];
      assert es == [e] + rest;
      DecodeStep(utf8, e, Encoded(rest), before);
      DecodeAllEncoded(utf8, rest, before + [e]);
      Rejoin(before, e, rest, es);
    }
  }

  lemma {:induction false} DecodeAllSound(utf8: Utf8, t: seq<byte>, before: seq<Entry>) returns (es: seq<Entry>)
    requires DecodeAll(utf8, t, before).Ok?
    ensures DecodeAll(utf8, t, before) == Ok(before + es)
    ensures AllWritable(utf8, es) && t == Encoded(es)
    decreases |t|
  {
    if t == [] {
      es := [];
      assert before + es == before;
    } else {
      var read := DecodeEntry(utf8, t).value;
      EncodeDecoded(utf8, t);
      var rest := DecodeAllSound(utf8, t[read.len..], before + [read.entry]);
      es := [read.entry] + rest;
      assert es[1..] == rest;
      assert before + [read.entry] + rest == before + es;
      assert t == t[..read.len] + t[read.len..];
    }
  }

  /** A file reads as a log exactly when it is the serialisation of that log and the log verifies. */
  lemma Canonical(h: Hash, utf8: Utf8, buf: seq<byte>, es: seq<Entry>)
    ensures Deserialized(h, utf8, buf) == Ok(es) <==> AllWritable(utf8, es) && Chain(h, es) && buf == Serialized(es)
  {
    if AllWritable(utf8, es) && Chain(h, es) && buf == Serialized(es) {
      assert buf[..9] == HEADER && buf[9..] == Encoded(es);
      DecodeAllEncoded(utf8, es, []);
      assert [] + es == es;
    }
    if Deserialized(h, utf8, buf) == Ok(es) {
      var found := DecodeAllSound(utf8, buf[9..], []);
      assert [] + found == found;
      assert buf == buf[..9] + buf[9..];
    }
  }

  lemma {:induction false} EncodedPush(es: seq<Entry>, e: Entry)
    ensures Encoded(es + [e]) == Encoded(es) + EncodeEntry(e)
  {
    if es == [] {
      assert es + [e] == [e] && [e][1..] == [];
      assert Encoded([e]) == EncodeEntry(e) + [];
    } else {
      EncodedPush(es[1..], e);
      assert (es + [e])[1..] == es[1..] + [e];
      Assoc(EncodeEntry(es[0]), Encoded(es[1..]), EncodeEntry(e));
    }
  }

  /** Appending one encoded entry to the file is the same as writing the longer log. */
  lemma AppendIsReserialise(es: seq<Entry>, e: Entry)
    ensures Serialized(es) + EncodeEntry(e) == Serialized(es + [e])
  {
    EncodedPush(es, e);
    Assoc(HEADER, Encoded(es), EncodeEntry(e));
  }

  // ---------------------------------------------------------------- cuts

  lemma TornEntry(utf8: Utf8, e: Entry, t: seq<byte>)
    requires Writable(utf8, e) && |t| < |EncodeEntry(e)| && t == EncodeEntry(e)[..|t|]
    ensures DecodeEntry(utf8, t) == Err(Truncated)
  {
    if |t| >= 84 {
      var f := LE(|e.sql|, 4);
      Cut5(LE(e.seqNo, 8), LE(e.ts, 8), e.prev, e.hash, f, e.sql, EncodeEntry(e));
      assert t[80..84] == EncodeEntry(e)[80..84];
      FieldWidths();
      LERoundTrip(|e.sql|, 4);
    }
  }

  lemma DecodeStep(utf8: Utf8, e: Entry, rest: seq<byte>, before: seq<Entry>)
    requires Writable(utf8, e)
    ensures DecodeAll(utf8, EncodeEntry(e) + rest, before) == DecodeAll(utf8, rest, before + [e])
  {
    DecodeEncoded(utf8, e, rest);
    assert (EncodeEntry(e) + rest)[|EncodeEntry(e)|..] == rest;
  }

  lemma DecodeTorn(utf8: Utf8, e: Entry, t: seq<byte>, before: seq<Entry>)
    requires Writable(utf8, e) && 0 < |t| < |EncodeEntry(e)| && t == EncodeEntry(e)[..|t|]
    ensures DecodeAll(utf8, t, before) == Err(Truncated)
  {
    TornEntry(utf8, e, t);
  }

  // How many entries end within `n` bytes.
  function Whole(es: seq<Entry>, n: nat): (k: nat)
    ensures k <= |es|
  {
    if es == [] || n < |EncodeEntry(es[0])| then 0 else 1 + Whole(es[1..], n - |EncodeEntry(es[0])|)
  }

  lemma EncodedCons(e: Entry, es: seq<Entry>)
    ensures Encoded([e] + es) == EncodeEntry(e) + Encoded(es)
  {
    assert ([e] + es)[1..] == es;
  }

  lemma {:induction false} WholeFits(es: seq<Entry>, n: nat)
    ensures var k := Whole(es, n);
            |Encoded(es[..k])| <= n && (k < |es| ==> n < |Encoded(es[..k + 1])|)
  {
    if es != [] {
      var e, rest, m := es[0], es[1..], |EncodeEntry(es[0])|;
      assert es[..1] == [e] + [];
      EncodedCons(e, []);
      if n >= m {
        WholeFits(rest, n - m);
        var j := Whole(rest, n - m);
        assert es[..j + 1] == [e] + rest[..j];
        EncodedCons(e, rest[..j]);
        if j < |rest| {
          assert es[..j + 2] == [e] + rest[..j + 1];
          EncodedCons(e, rest[..j + 1]);
        }
      }
    }
  }

  lemma CutPrefix(e: seq<byte>, rest: seq<byte>, n: nat)
    requires n <= |e| + |rest|
    ensures n < |e| ==> (e + rest)[..n] == e[..n]
    ensures n >= |e| ==> (e + rest)[..n] == e + rest[..n - |e|]
  {}

  /** What a cut after `n` bytes leaves: the whole entries when it falls between two, an error otherwise. */
  function CutResult(es: seq<Entry>, before: seq<Entry>, n: nat): Result<seq<Entry>> {
    var k := Whole(es, n);
    if n == |Encoded(es[..k])| then Ok(before + es[..k]) else Err(Truncated)
  }

  lemma CutStep(es: seq<Entry>, before: seq<Entry>, n: nat, e: Entry, rest: seq<Entry>, m: nat)
    requires es != [] && e == es[0] && rest == es[1..] && m == |EncodeEntry(e)| <= n
    ensures CutResult(es, before, n) == CutResult(rest, before + [e], n - m)
  {
    var j := Whole(rest, n - m);
    assert es[..j + 1] == [e] + rest[..j];
    EncodedCons(e, rest[..j]);
    assert before + [e] + rest[..j] == before + es[..j + 1];
  }

  lemma CutTorn(es: seq<Entry>, before: seq<Entry>, n: nat)
    requires es != [] && n < |EncodeEntry(es[0])|
    ensures CutResult(es, before, n) == if n == 0 then Ok(before) else Err(Truncated)
  {
    assert es[..0] == [] && before + [] == before;
  }

  /** A cut at the end of an entry leaves the entries before it; any other cut is noticed. */
  lemma {:induction false} DecodeCut(utf8: Utf8, es: seq<Entry>, before: seq<Entry>, n: nat)
    requires AllWritable(utf8, es) && n <= |Encoded(es)|
    ensures DecodeAll(utf8, Encoded(es)[..n], before) == CutResult(es, before, n)
    decreases |es|
  {
    if es == [] {
      assert es[..0] == [] && before + [] == before;
    } else {
      var e, rest := es[0], es[1..];
      var m := |EncodeEntry(e)|;
      CutPrefix(EncodeEntry(e), Encoded(rest), n);
      if n < m {
        CutTorn(es, before, n);
        if n > 0 { DecodeTorn(utf8, e, Encoded(es)[..n], before); }
      } else {
        CutStep(es, before, n, e, rest, m);
        DecodeStep(utf8, e, Encoded(rest)[..n - m], before);
        DecodeCut(utf8, rest, before + [e], n - m);
      }
    }
  }

  lemma Headed(h: Hash, utf8: Utf8, t: seq<byte>, es: seq<Entry>)
    requires Chain(h, es)
    ensures DecodeAll(utf8, t, []) == Ok(es) ==> Deserialized(h, utf8, HEADER + t) == Ok(es)
    ensures DecodeAll(utf8, t, []) == Err(Truncated) ==> Deserialized(h, utf8, HEADER + t) == Err(Truncated)
  {
    assert (HEADER + t)[..9] == HEADER && (HEADER + t)[9..] == t;
  }

  lemma CutHeader(es: seq<Entry>, n: nat, t: seq<byte>)
    requires 9 <= n <= |Serialized(es)| && t == Encoded(es)[..n - 9]
    ensures Serialized(es)[..n] == HEADER + t
  {
    CutPrefix(HEADER, Encoded(es), n);
  }

  lemma CutChain(h: Hash, utf8: Utf8, es: seq<Entry>, m: nat, t: seq<byte>, k: nat)
    requires AllWritable(utf8, es) && Chain(h, es) && m <= |Encoded(es)| && t == Encoded(es)[..m] && k == Whole(es, m)
    ensures Deserialized(h, utf8, HEADER + t)
         == if m == |Encoded(es[..k])| then Ok(es[..k]) else Err(Truncated)
  {
    DecodeCut(utf8, es, [], m);
    assert [] + es[..k] == es[..k];
    ChainPrefix(h, es, k);
    Headed(h, utf8, t, es[..k]);
  }

  /**
   * A cut inside the header is refused, a cut between entries leaves the log up
   * to it, and any other cut is `Truncated`.
   */
  lemma CutFile(h: Hash, utf8: Utf8, es: seq<Entry>, n: nat) returns (k: nat)
    requires AllWritable(utf8, es) && Chain(h, es) && n <= |Serialized(es)|
    ensures n < |HEADER| ==> Deserialized(h, utf8, Serialized(es)[..n]) == Err(BadHeader)
    ensures n >= |HEADER| ==>
              k <= |es| && |Serialized(es[..k])| <= n && (k < |es| ==> n < |Serialized(es[..k + 1])|)
    ensures n >= |HEADER| ==>
              Deserialized(h, utf8, Serialized(es)[..n])
              == if n == |Serialized(es[..k])| then Ok(es[..k]) else Err(Truncated)
  {
    k := 0;
    if n >= |HEADER| {
      k := Whole(es, n - 9);
      var t := Encoded(es)[..n - 9];
      WholeFits(es, n - 9);
      CutHeader(es, n, t);
      CutChain(h, utf8, es, n - 9, t, k);
    }
  }
}
