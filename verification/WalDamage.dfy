/** A short burst of damage inside a v6 record body ends the scan exactly at that record. */
module WalDamage {
  import opened Bytes
  import opened BitStrings
  import opened WalFormat
  import opened WalCodec
  import Crc
  import opened Wrappers

  /** The v6 checksum is the CRC-32C of the crypto crate. */
  ghost predicate Castagnoli(s: Sums) {
    forall x :: s.crcC(x) == Nat(Crc.Checksum(Crc.CASTAGNOLI, x))
  }

  lemma {:induction false} MessageBitsConcat(a: seq<byte>, b: seq<byte>)
    ensures Crc.MessageBits(a + b) == Crc.MessageBits(a) + Crc.MessageBits(b)
  {
    if a == [] {
      assert a + b == b;
    } else {
      assert (a + b)[1..] == a[1..] + b;
      MessageBitsConcat(a[1..], b);
    }
  }

  lemma BitWindow(m: seq<byte>, at: nat, len: nat)
    requires at + len <= |m|
    ensures Crc.MessageBits(m)[..8 * at] == Crc.MessageBits(m[..at])
    ensures Crc.MessageBits(m)[8 * (at + len)..] == Crc.MessageBits(m[at + len..])
  {
    assert m == m[..at] + m[at..];
    MessageBitsConcat(m[..at], m[at..]);
    assert m == m[..at + len] + m[at + len..];
    MessageBitsConcat(m[..at + len], m[at + len..]);
  }

  lemma SameWindow(m1: seq<byte>, m2: seq<byte>, at: nat, len: nat, i: nat, j: nat)
    requires at + len <= |m1| == |m2|
    requires m1[..at] == m2[..at] && m1[at + len..] == m2[at + len..]
    requires i == 8 * at && j == 8 * (at + len)
    ensures j <= |Crc.MessageBits(m1)| && j <= |Crc.MessageBits(m2)|
    ensures Crc.MessageBits(m1)[..i] == Crc.MessageBits(m2)[..i]
    ensures Crc.MessageBits(m1)[j..] == Crc.MessageBits(m2)[j..]
  {
    BitWindow(m1, at, len);
    BitWindow(m2, at, len);
  }

  lemma SameChecksum(a: Crc.Reg, b: Crc.Reg)
    requires Nat(a) == Nat(b)
    ensures a == b
  {
    BitsOfNat(a);
    BitsOfNat(b);
  }

  lemma ByteBurst(poly: Crc.Reg, m1: seq<byte>, m2: seq<byte>, at: nat, len: nat)
    requires poly[31] && len <= 4 && at + len <= |m1| == |m2|
    requires m1[..at] == m2[..at] && m1[at + len..] == m2[at + len..]
    requires Nat(Crc.Checksum(poly, m1)) == Nat(Crc.Checksum(poly, m2))
    ensures m1 == m2
  {
    SameChecksum(Crc.Checksum(poly, m1), Crc.Checksum(poly, m2));
    SameWindow(m1, m2, at, len, 8 * at, 8 * at + 8 * len);
    Crc.BurstDetected(poly, m1, m2, 8 * at, 8 * len);
  }

  /** Equal checksums rule out any difference confined to four bytes. */
  lemma ChecksumCatches(s: Sums, m1: seq<byte>, m2: seq<byte>, at: nat, len: nat)
    requires Castagnoli(s) && len <= 4 && at + len <= |m1| == |m2|
    requires m1[..at] == m2[..at] && m1[at + len..] == m2[at + len..]
    requires s.crcC(m1) == s.crcC(m2)
    ensures m1 == m2
  {
    Crc.PolynomialsInvertible();
    ByteBurst(Crc.CASTAGNOLI, m1, m2, at, len);
  }

  /** Header and stored checksum of `r`, followed by a body of the same length. */
  function Damaged(s: Sums, r: Rec, body: seq<byte>): seq<byte>
    requires r.V6? && Shaped(r)
  {
    V6Header(|r.payload|) + LE(s.crcC(BodyOf(s, r)), 4) + body
  }

  function BodyOf(s: Sums, r: Rec): seq<byte>
    requires r.V6? && Shaped(r)
  {
    V6Body(s, r.scheme, r.typeByte, r.payload, r.prev, r.lsn, r.ts)
  }

  lemma DamageStops(s: Sums, r: Rec, body: seq<byte>, at: nat, len: nat, rest: seq<byte>, base: nat)
    requires Castagnoli(s) && r.V6? && Writable(r)
    requires |body| == |BodyOf(s, r)| && body != BodyOf(s, r) && body[25] == r.scheme
    requires len <= 4 && at + len <= |body|
    requires body[..at] == BodyOf(s, r)[..at] && body[at + len..] == BodyOf(s, r)[at + len..]
    ensures ParseOne(s, Damaged(s, r, body) + rest, base) == Stop
  {
    var crc := LE(s.crcC(BodyOf(s, r)), 4);
    V6HeaderWord(|r.payload|);
    FieldWidths();
    LERoundTrip(s.crcC(BodyOf(s, r)), 4);
    if s.crcC(body) == s.crcC(BodyOf(s, r)) {
      ChecksumCatches(s, body, BodyOf(s, r), at, len);
    }
    StoredMismatch(s, V6Header(|r.payload|), crc, body, rest, |r.payload|, base);
  }

  lemma StoredMismatch(s: Sums, hdr: seq<byte>, crc: seq<byte>, body: seq<byte>, rest: seq<byte>, recLen: nat, base: nat)
    requires |hdr| == 4 && |crc| == 4 && |body| >= 26
    requires IsV6(FromLE(hdr)) && FromLE(hdr) % V6_FLAG == recLen
    requires body[25] == SCHEME_BLAKE3 || body[25] == SCHEME_CRC32C
    requires |body| == recLen + if body[25] == SCHEME_BLAKE3 then 58 else 26
    requires s.crcC(body) != FromLE(crc)
    ensures ParseOne(s, hdr + crc + body + rest, base) == Stop
  {
    Whole6(hdr, crc, body, rest);
    MismatchStops(s, hdr + crc + body + rest, body, recLen, base);
  }

  /** A v6 record whose checksum does not fit its body stops the parser. */
  lemma MismatchStops(s: Sums, b: seq<byte>, body: seq<byte>, recLen: nat, base: nat)
    requires |b| >= 8 + |body| && b[8..8 + |body|] == body && |body| >= 26
    requires IsV6(FromLE(b[..4])) && FromLE(b[..4]) % V6_FLAG == recLen
    requires body[25] == SCHEME_BLAKE3 || body[25] == SCHEME_CRC32C
    requires |body| == recLen + if body[25] == SCHEME_BLAKE3 then 58 else 26
    requires s.crcC(body) != FromLE(b[4..8])
    ensures ParseOne(s, b, base) == Stop
  {
    assert b[33] == b[8..8 + |body|][25];
  }

  /** The records before the damaged one survive, and nothing at or after it is read. */
  lemma DamageContained(s: Sums, before: seq<Rec>, r: Rec, body: seq<byte>, at: nat, len: nat, rest: seq<byte>)
    requires Castagnoli(s) && AllWritable(before) && r.V6? && Writable(r)
    requires |body| == |BodyOf(s, r)| && body != BodyOf(s, r) && body[25] == r.scheme
    requires len <= 4 && at + len <= |body|
    requires body[..at] == BodyOf(s, r)[..at] && body[at + len..] == BodyOf(s, r)[at + len..]
    ensures ParseFrom(s, EncodeAll(s, before) + (Damaged(s, r, body) + rest), 0) == Records(Views(before, 0))
  {
    forall base: nat ensures ParseOne(s, Damaged(s, r, body) + rest, base) == Stop {
      DamageStops(s, r, body, at, len, rest, base);
    }
    var tail := Damaged(s, r, body) + rest;
    BeforeIs(s, before, tail);
    var p := SomeParse(s, before, tail, 0);
    ParseUpTo(s, before, tail, 0, p);
  }

  // ---------------------------------------------------------------- what v3 to v5 do not catch

  /** The same bytes with another checksum field. */
  function Rechecked(b: seq<byte>, crc: seq<byte>): seq<byte>
    requires |b| >= 8
  {
    b[..4] + crc + b[8..]
  }

  lemma RecheckedBytes(b: seq<byte>, crc: seq<byte>)
    requires |b| >= 8 && |crc| == 4
    ensures var r := Rechecked(b, crc); |r| == |b| && r[..4] == b[..4]
    ensures forall k: nat :: 8 <= k < |b| ==> Rechecked(b, crc)[k] == b[k]
  {
  }

  lemma LaterSlices(a: seq<byte>, b: seq<byte>)
    requires |a| == |b| >= 8 && forall k: nat :: 8 <= k < |b| ==> a[k] == b[k]
    ensures forall i: nat, j: nat :: 8 <= i <= j <= |b| ==> a[i..j] == b[i..j]
  {
  }

  /** Before v6 the parser reads neither the checksum field nor any checksum function. */
  lemma ChecksumIgnored(s: Sums, s': Sums, b: seq<byte>, crc: seq<byte>, base: nat)
    requires |b| >= 8 && |crc| == 4 && IsV2(FromLE(b[..4])) && !IsV6(FromLE(b[..4]))
    ensures ParseOne(s, Rechecked(b, crc), base) == ParseOne(s', b, base)
  {
    RecheckedBytes(b, crc);
    LaterSlices(Rechecked(b, crc), b);
  }

  /** A v3 record whose payload was damaged is handed out as if it had been written so. */
  lemma V3DamageUnseen(s: Sums, payload: seq<byte>, damaged: seq<byte>, rest: seq<byte>, base: nat)
    requires |damaged| == |payload| < V6_FLAG
    ensures var crc := LE(s.crc([AUTO_COMMIT_V3] + payload), 4);
      ParseOne(s, V3Header(|payload|) + crc + [AUTO_COMMIT_V3] + damaged + rest, base)
        == Got(View(V3(damaged), base), 9 + |payload|)
  {
    var crc := LE(s.crc([AUTO_COMMIT_V3] + payload), 4);
    var b := EncodeV3(s, damaged) + rest;
    ParseV3(s, damaged, rest, base);
    V3HeaderWord(|payload|);
    assert b[..4] == V3Header(|payload|);
    assert Rechecked(b, crc) == V3Header(|payload|) + crc + [AUTO_COMMIT_V3] + damaged + rest;
    ChecksumIgnored(s, s, b, crc, base);
  }

  /** So is a v4 or v5 record, its LSN and its time stamp included. */
  lemma V4DamageUnseen(s: Sums, t: byte, was: seq<byte>, lsn: nat, ts: int, damaged: seq<byte>, rest: seq<byte>, base: nat)
    requires Writable(V4(t, lsn, ts, damaged))
    ensures var crc := LE(s.crc([t] + was), 4);
      ParseOne(s, V3Header(|damaged|) + crc + [t] + (V4Stamp(lsn, ts) + damaged) + rest, base)
        == Got(View(V4(t, lsn, ts, damaged), base), 25 + |damaged|)
  {
    var crc := LE(s.crc([t] + was), 4);
    var b := EncodeV4(s, t, damaged, lsn, ts) + rest;
    ParseV4(s, t, damaged, lsn, ts, rest, base);
    V3HeaderWord(|damaged|);
    assert b[..4] == V3Header(|damaged|);
    assert Rechecked(b, crc) == V3Header(|damaged|) + crc + [t] + (V4Stamp(lsn, ts) + damaged) + rest;
    ChecksumIgnored(s, s, b, crc, base);
  }
}
