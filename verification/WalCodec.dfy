/** Round trip of the WAL record codec, with torn tails and damaged records. */
module WalCodec {
  import opened Bytes
  import opened WalFormat
  import opened Wrappers

  datatype Rec =
    | V3(payload: seq<byte>)
    | V4(typeByte: byte, lsn: nat, ts: int, payload: seq<byte>)
    | V4Marker(lsn: nat, ts: int, path: seq<byte>)
    | V6(scheme: byte, typeByte: byte, prev: nat, lsn: nat, ts: int, payload: seq<byte>)

  /** The fields fit their types. */
  predicate Shaped(r: Rec) {
    match r
    case V3(payload) => true
    case V4(t, lsn, ts, payload) => (t == AUTO_COMMIT || t == TX_COMMIT || t == ROW_REDO) && Lsn(lsn) && Micros(ts)
    case V4Marker(lsn, ts, path) => Lsn(lsn) && Micros(ts)
    case V6(scheme, t, prev, lsn, ts, payload) =>
      (scheme == SCHEME_CRC32C || scheme == SCHEME_BLAKE3) && Lsn(prev) && Lsn(lsn) && Micros(ts)
  }

  /** The payload length stays below the flag bits of the length word. */
  predicate Small(r: Rec) {
    r.V4Marker? || |r.payload| < V6_FLAG
  }

  predicate Writable(r: Rec) {
    Shaped(r) && Small(r)
  }

  function Encode(s: Sums, r: Rec): seq<byte>
    requires Shaped(r)
  {
    match r
    case V3(payload) => EncodeV3(s, payload)
    case V4(t, lsn, ts, payload) => EncodeV4(s, t, payload, lsn, ts)
    case V4Marker(lsn, ts, path) => EncodeV4Marker(s, lsn, ts, path)
    case V6(scheme, t, prev, lsn, ts, payload) => EncodeV6(s, scheme, t, payload, prev, lsn, ts)
  }

  /** What a reader sees of a record that starts at `offset`. */
  function View(r: Rec, offset: nat): WalRecord {
    match r
    case V3(payload) => WalRecord(offset, AUTO_COMMIT_V3, None, None, None, payload)
    case V4(t, lsn, ts, payload) => WalRecord(offset, t, Some(lsn), ClockOf(ts), None, payload)
    case V4Marker(lsn, ts, path) =>
      WalRecord(offset, CHECKPOINT_MARKER, Some(lsn), ClockOf(ts), None, V4MarkerPath(path))
    case V6(_, t, prev, lsn, ts, payload) => WalRecord(offset, t, Some(lsn), ClockOf(ts), Some(prev), payload)
  }

  // ---------------------------------------------------------------- reading fields back

  // A length below the flag bits is told apart from them.
  lemma SmallWord(len: nat, v3: nat, v6: nat)
    requires len < V6_FLAG && v3 == OrBit(OrBit(len % U32_LIMIT, V2_SENTINEL), V3_FLAG) && v6 == OrBit(v3, V6_FLAG)
    ensures v3 < U32_LIMIT && IsV3(v3) && !IsV6(v3) && v3 % V3_FLAG == len
    ensures v6 < U32_LIMIT && IsV6(v6) && v6 % V6_FLAG == len
  {
    assert v3 == len + V2_SENTINEL + V3_FLAG && v6 == v3 + V6_FLAG;
  }

  lemma V3HeaderWord(len: nat)
    requires len < V6_FLAG
    ensures var raw := FromLE(V3Header(len)); IsV3(raw) && !IsV6(raw) && raw % V3_FLAG == len
  {
    var v3 := OrBit(OrBit(len % U32_LIMIT, V2_SENTINEL), V3_FLAG);
    FieldWidths();
    SmallWord(len, v3, OrBit(v3, V6_FLAG));
    LERoundTrip(v3, 4);
  }

  lemma V6HeaderWord(len: nat)
    requires len < V6_FLAG
    ensures var raw := FromLE(V6Header(len)); IsV6(raw) && raw % V6_FLAG == len
  {
    var v3 := OrBit(OrBit(len % U32_LIMIT, V2_SENTINEL), V3_FLAG);
    var v6 := OrBit(v3, V6_FLAG);
    FieldWidths();
    SmallWord(len, v3, v6);
    LERoundTrip(v6, 4);
  }

  /** Slices of a buffer that opens with a 4-byte word, a 4-byte checksum and a type byte. */
  lemma Envelope(hdr: seq<byte>, crc: seq<byte>, t: byte, rest: seq<byte>)
    requires |hdr| == 4 && |crc| == 4
    ensures var b := hdr + crc + [t] + rest;
      b[..4] == hdr && b[4..8] == crc && b[8] == t && b[9..] == rest && b[8..] == [t] + rest
  {
  }

  lemma DropSlice(b: seq<byte>, k: nat, i: nat, j: nat)
    requires k + i <= k + j <= |b|
    ensures b[k + i..k + j] == b[k..][i..j]
  {
  }

  lemma StampFields(lsn: nat, ts: int, rest: seq<byte>)
    requires Lsn(lsn) && Micros(ts)
    ensures var f := V4Stamp(lsn, ts) + rest;
      FromLE(f[0..8]) == lsn && FromLE(f[8..16]) == I64Bits(ts) && f[16..] == rest
  {
    var f := V4Stamp(lsn, ts) + rest;
    assert f[0..8] == LE(lsn, 8) && f[8..16] == LE(I64Bits(ts), 8);
    FieldWidths();
    LERoundTrip(lsn, 8);
    LERoundTrip(I64Bits(ts), 8);
  }

  lemma I64RoundTrip(ts: int)
    requires Micros(ts)
    ensures I64FromBits(I64Bits(ts)) == ts
  {
  }

  /** A stamp placed `k` bytes into a buffer is read back by the parser's field readers. */
  lemma StampAt(b: seq<byte>, k: nat, lsn: nat, ts: int, rest: seq<byte>)
    requires Lsn(lsn) && Micros(ts) && k <= |b| && b[k..] == V4Stamp(lsn, ts) + rest
    ensures k + 16 <= |b| && LsnAt(b, k) == lsn && MicrosAt(b, k + 8) == ts && b[k + 16..] == rest
  {
    StampFields(lsn, ts, rest);
    DropSlice(b, k, 0, 8);
    DropSlice(b, k, 8, 16);
    assert b[k + 16..] == b[k..][16..];
    I64RoundTrip(ts);
  }

  // ---------------------------------------------------------------- one record

  lemma ParseV3(s: Sums, payload: seq<byte>, rest: seq<byte>, base: nat)
    requires |payload| < V6_FLAG
    ensures ParseOne(s, EncodeV3(s, payload) + rest, base) == Got(View(V3(payload), base), |EncodeV3(s, payload)|)
  {
    var hdr, crc := V3Header(|payload|), LE(s.crc([AUTO_COMMIT_V3] + payload), 4);
    var b := EncodeV3(s, payload) + rest;
    assert b == hdr + crc + [AUTO_COMMIT_V3] + (payload + rest);
    Envelope(hdr, crc, AUTO_COMMIT_V3, payload + rest);
    V3HeaderWord(|payload|);
    DropSlice(b, 9, 0, |payload|);
  }

  lemma ParseV4(s: Sums, t: byte, payload: seq<byte>, lsn: nat, ts: int, rest: seq<byte>, base: nat)
    requires Writable(V4(t, lsn, ts, payload))
    ensures ParseOne(s, EncodeV4(s, t, payload, lsn, ts) + rest, base)
         == Got(View(V4(t, lsn, ts, payload), base), |EncodeV4(s, t, payload, lsn, ts)|)
  {
    var hdr, crc := V3Header(|payload|), LE(s.crc([t] + (V4Stamp(lsn, ts) + payload)), 4);
    var b := EncodeV4(s, t, payload, lsn, ts) + rest;
    var tail := V4Stamp(lsn, ts) + (payload + rest);
    assert b == hdr + crc + [t] + tail;
    Envelope(hdr, crc, t, tail);
    V3HeaderWord(|payload|);
    StampAt(b, 9, lsn, ts, payload + rest);
    DropSlice(b, 25, 0, |payload|);
  }

  lemma ParseV4Marker(s: Sums, lsn: nat, ts: int, path: seq<byte>, rest: seq<byte>, base: nat)
    requires Lsn(lsn) && Micros(ts)
    ensures ParseOne(s, EncodeV4Marker(s, lsn, ts, path) + rest, base)
         == Got(View(V4Marker(lsn, ts, path), base), |EncodeV4Marker(s, lsn, ts, path)|)
  {
    var payload := V4MarkerPayload(lsn, ts, path);
    var kept := V4MarkerPath(path);
    var hdr, crc := V3Header(|payload|), LE(s.crc([CHECKPOINT_MARKER] + payload), 4);
    var b := EncodeV4Marker(s, lsn, ts, path) + rest;
    var tail := LE(|kept|, 2) + (kept + rest);
    assert b == hdr + crc + [CHECKPOINT_MARKER] + (V4Stamp(lsn, ts) + tail);
    Envelope(hdr, crc, CHECKPOINT_MARKER, V4Stamp(lsn, ts) + tail);
    V3HeaderWord(|payload|);
    StampAt(b, 9, lsn, ts, tail);
    DropSlice(b, 25, 0, 2);
    DropSlice(b, 25, 2, 2 + |kept|);
    FieldWidths();
    LERoundTrip(|kept|, 2);
    MarkerGot(b, |payload|, base, lsn, ts, kept);
  }

  lemma MarkerGot(b: seq<byte>, recLen: nat, base: nat, lsn: nat, ts: int, kept: seq<byte>)
    requires 9 + recLen <= |b| && recLen == 18 + |kept|
    requires LsnAt(b, 9) == lsn && MicrosAt(b, 17) == ts && FromLE(b[25..27]) == |kept| && b[27..27 + |kept|] == kept
    ensures ParseMarker(b, recLen, base)
         == Got(WalRecord(base, CHECKPOINT_MARKER, Some(lsn), ClockOf(ts), None, kept), 9 + recLen)
  {
  }

  /** The parts of a buffer that opens with a v6 record. */
  lemma V6Fields(s: Sums, scheme: byte, t: byte, payload: seq<byte>, prev: nat, lsn: nat, ts: int, rest: seq<byte>)
    requires Writable(V6(scheme, t, prev, lsn, ts, payload))
    ensures var e := EncodeV6(s, scheme, t, payload, prev, lsn, ts);
      var b := e + rest;
      var digest: seq<byte> := if scheme == SCHEME_BLAKE3 then s.blake3(payload) else [];
      var at := 34 + |digest|;
      && |e| == at + |payload|
      && b[..4] == V6Header(|payload|)
      && b[4..8] == LE(s.crcC(V6Body(s, scheme, t, payload, prev, lsn, ts)), 4)
      && b[8..at + |payload|] == V6Body(s, scheme, t, payload, prev, lsn, ts)
      && b[8] == t && b[33] == scheme && b[34..at] == digest && b[at..at + |payload|] == payload
      && LsnAt(b, 9) == prev && LsnAt(b, 17) == lsn && MicrosAt(b, 25) == ts
  {
    var e := EncodeV6(s, scheme, t, payload, prev, lsn, ts);
    var b := e + rest;
    var body := V6Body(s, scheme, t, payload, prev, lsn, ts);
    var digest: seq<byte> := if scheme == SCHEME_BLAKE3 then s.blake3(payload) else [];
    var at := 34 + |digest|;
    var hdr, crc := V6Header(|payload|), LE(s.crcC(body), 4);
    var afterPrev := V4Stamp(lsn, ts) + ([scheme] + (digest + payload + rest));
    Whole6(hdr, crc, body, rest);
    Body6(t, LE(prev, 8), V4Stamp(lsn, ts), scheme, digest, payload, rest, body);
    assert b[8..] == body + rest;
    Slide6(b, body + rest, digest, payload, rest, t, LE(prev, 8), V4Stamp(lsn, ts), scheme);
    StampAt(b, 17, lsn, ts, [scheme] + (digest + payload + rest));
    FieldWidths();
    LERoundTrip(prev, 8);
  }

  lemma Whole6(hdr: seq<byte>, crc: seq<byte>, body: seq<byte>, rest: seq<byte>)
    requires |hdr| == 4 && |crc| == 4
    ensures var b := hdr + crc + body + rest;
      b[..4] == hdr && b[4..8] == crc && b[8..8 + |body|] == body && b[8..] == body + rest
  {
  }

  lemma Body6(t: byte, prev: seq<byte>, stamp: seq<byte>, scheme: byte, digest: seq<byte>, payload: seq<byte>,
              rest: seq<byte>, body: seq<byte>)
    requires |prev| == 8 && |stamp| == 16
    requires body == [t] + prev + stamp[..8] + stamp[8..] + [scheme] + (digest + payload)
    ensures body + rest == [t] + (prev + (stamp + ([scheme] + (digest + (payload + rest)))))
  {
    assert stamp[..8] + stamp[8..] == stamp;
  }

  lemma Slide6(b: seq<byte>, c: seq<byte>, digest: seq<byte>, payload: seq<byte>, rest: seq<byte>,
               t: byte, prev: seq<byte>, stamp: seq<byte>, scheme: byte)
    requires |prev| == 8 && |stamp| == 16 && |b| >= 8 && b[8..] == c
    requires c == [t] + (prev + (stamp + ([scheme] + (digest + (payload + rest)))))
    ensures |b| >= 34 + |digest| + |payload|
    ensures b[8] == t && b[9..17] == prev && b[17..] == stamp + ([scheme] + (digest + payload + rest))
    ensures b[33] == scheme && b[34..34 + |digest|] == digest
    ensures b[34 + |digest|..34 + |digest| + |payload|] == payload
  {
    var d := 34 + |digest|;
    assert b[8] == c[0];
    assert b[9..17] == c[1..9];
    assert b[17..] == c[9..];
    assert b[33] == c[25];
    assert b[34..d] == c[26..d - 8];
    assert b[d..d + |payload|] == c[d - 8..d - 8 + |payload|];
  }

  lemma ParseV6Record(s: Sums, r: Rec, rest: seq<byte>, base: nat)
    requires r.V6? && Writable(r)
    ensures ParseOne(s, Encode(s, r) + rest, base) == Got(View(r, base), |Encode(s, r)|)
  {
    V6Fields(s, r.scheme, r.typeByte, r.payload, r.prev, r.lsn, r.ts, rest);
    V6HeaderWord(|r.payload|);
    FieldWidths();
    LERoundTrip(s.crcC(V6Body(s, r.scheme, r.typeByte, r.payload, r.prev, r.lsn, r.ts)), 4);
  }

  lemma ParseEncoded(s: Sums, r: Rec, rest: seq<byte>, base: nat)
    requires Writable(r)
    ensures ParseOne(s, Encode(s, r) + rest, base) == Got(View(r, base), |Encode(s, r)|)
  {
    match r
    case V3(payload) => ParseV3(s, payload, rest, base);
    case V4(t, lsn, ts, payload) => ParseV4(s, t, payload, lsn, ts, rest, base);
    case V4Marker(lsn, ts, path) => ParseV4Marker(s, lsn, ts, path, rest, base);
    case V6(_, _, _, _, _, _) => ParseV6Record(s, r, rest, base);
  }

  // ---------------------------------------------------------------- an oversize record

  // The flag bits of the length word, whatever the length has in them already.
  lemma FlaggedWord(low: nat, v3: nat, v6: nat)
    requires low < U32_LIMIT && v3 == OrBit(OrBit(low, V2_SENTINEL), V3_FLAG) && v6 == OrBit(v3, V6_FLAG)
    ensures v3 < U32_LIMIT && (v3 / V2_SENTINEL) % 2 == 1 && (v3 / V3_FLAG) % 2 == 1
    ensures v6 < U32_LIMIT && (v6 / V2_SENTINEL) % 2 == 1 && (v6 / V3_FLAG) % 2 == 1 && (v6 / V6_FLAG) % 2 == 1
  {
  }

  lemma SpilledWord(len: nat, v3: nat)
    requires len >= V6_FLAG && v3 == OrBit(OrBit(len % U32_LIMIT, V2_SENTINEL), V3_FLAG)
    ensures (v3 / V6_FLAG) % 2 == 1 || v3 % V3_FLAG < len
  {
  }

  lemma OversizeHeader(len: nat)
    requires len >= V6_FLAG
    ensures var raw := FromLE(V3Header(len)); IsV3(raw) && (IsV6(raw) || raw % V3_FLAG < len)
    ensures var raw := FromLE(V6Header(len)); IsV6(raw) && raw % V6_FLAG < len
  {
    var v3 := OrBit(OrBit(len % U32_LIMIT, V2_SENTINEL), V3_FLAG);
    var v6 := OrBit(v3, V6_FLAG);
    FieldWidths();
    FlaggedWord(len % U32_LIMIT, v3, v6);
    SpilledWord(len, v3);
    LERoundTrip(v3, 4);
    LERoundTrip(v6, 4);
  }

  lemma GotShape(s: Sums, b: seq<byte>, base: nat)
    requires |b| >= 4 && IsV3(FromLE(b[..4])) && ParseOne(s, b, base).Got?
    ensures var raw := FromLE(b[..4]);
      var rec := ParseOne(s, b, base).record;
      if IsV6(raw) then rec.prevLsn.Some? && |rec.sql| == raw % V6_FLAG
      else rec.prevLsn.None? && (rec.typeByte != CHECKPOINT_MARKER ==> |rec.sql| <= raw % V3_FLAG)
  {
  }

  lemma EncodeHead(s: Sums, r: Rec, rest: seq<byte>)
    requires Shaped(r) && !r.V4Marker?
    ensures |Encode(s, r) + rest| >= 4
    ensures (Encode(s, r) + rest)[..4] == if r.V6? then V6Header(|r.payload|) else V3Header(|r.payload|)
  {
  }

  /** A well-shaped record is read back exactly when its payload is shorter than 2^29 bytes. */
  lemma ReadableIffSmall(s: Sums, r: Rec, rest: seq<byte>, base: nat)
    requires Shaped(r)
    ensures ParseOne(s, Encode(s, r) + rest, base) == Got(View(r, base), |Encode(s, r)|) <==> Small(r)
  {
    if Small(r) {
      ParseEncoded(s, r, rest, base);
    } else {
      EncodeHead(s, r, rest);
      OversizeHeader(|r.payload|);
      if ParseOne(s, Encode(s, r) + rest, base).Got? {
        GotShape(s, Encode(s, r) + rest, base);
      }
    }
  }

  // ---------------------------------------------------------------- a torn record

  lemma PrefixSlice(e: seq<byte>, k: nat, i: nat, j: nat)
    requires i <= j <= k <= |e|
    ensures e[..k][i..j] == e[i..j]
  {
  }

  lemma ParseTorn(s: Sums, r: Rec, k: nat, base: nat)
    requires Writable(r) && k < |Encode(s, r)|
    ensures ParseOne(s, Encode(s, r)[..k], base) == Stop
  {
    var e := Encode(s, r);
    var b := e[..k];
    assert e + [] == e;
    if k >= 4 {
      PrefixSlice(e, k, 0, 4);
      match r
      case V3(payload) =>
        V3HeaderWord(|payload|);
        Envelope(V3Header(|payload|), LE(s.crc([AUTO_COMMIT_V3] + payload), 4), AUTO_COMMIT_V3, payload);
      case V4(t, lsn, ts, payload) =>
        V3HeaderWord(|payload|);
        Envelope(V3Header(|payload|), LE(s.crc([t] + (V4Stamp(lsn, ts) + payload)), 4), t, V4Stamp(lsn, ts) + payload);
      case V4Marker(lsn, ts, path) =>
        var payload := V4MarkerPayload(lsn, ts, path);
        V3HeaderWord(|payload|);
        Envelope(V3Header(|payload|), LE(s.crc([CHECKPOINT_MARKER] + payload), 4), CHECKPOINT_MARKER, payload);
      case V6(scheme, t, prev, lsn, ts, payload) =>
        V6HeaderWord(|payload|);
        V6Fields(s, scheme, t, payload, prev, lsn, ts, []);
    }
  }

  // ---------------------------------------------------------------- whole logs

  predicate AllWritable(rs: seq<Rec>) {
    forall i :: 0 <= i < |rs| ==> Writable(rs[i])
  }

  function EncodeAll(s: Sums, rs: seq<Rec>): seq<byte>
    requires AllWritable(rs)
  {
    if rs == [] then [] else Encode(s, rs[0]) + EncodeAll(s, rs[1..])
  }

  /** The number of bytes a record takes. */
  function Size(r: Rec): nat {
    match r
    case V3(payload) => 9 + |payload|
    case V4(_, _, _, payload) => 25 + |payload|
    case V4Marker(_, _, path) => 27 + |V4MarkerPath(path)|
    case V6(scheme, _, _, _, _, payload) => (if scheme == SCHEME_BLAKE3 then 66 else 34) + |payload|
  }

  lemma SizeIs(s: Sums, r: Rec)
    requires Writable(r)
    ensures |Encode(s, r)| == Size(r)
  {
  }

  /** The records that lie wholly inside the first `n` bytes, as a reader sees them. */
  function Inside(rs: seq<Rec>, n: nat, base: nat): seq<WalRecord>
    decreases |rs|
  {
    if rs == [] || Size(rs[0]) > n then []
    else [View(rs[0], base)] + Inside(rs[1..], n - Size(rs[0]), base + Size(rs[0]))
  }

  lemma PrefixOfConcat(e: seq<byte>, more: seq<byte>, n: nat)
    requires n <= |e| + |more|
    ensures n < |e| ==> (e + more)[..n] == e[..n]
    ensures n >= |e| ==> (e + more)[..n] == e + more[..n - |e|] && (e + more[..n - |e|])[|e|..] == more[..n - |e|]
  {
  }

  lemma ParseStop(s: Sums, b: seq<byte>, base: nat)
    requires ParseOne(s, b, base) == Stop
    ensures ParseFrom(s, b, base) == Records([])
  {
  }

  /** One record at the front of a log, then whatever follows. */
  lemma ParseWhole(s: Sums, r: Rec, rest: seq<byte>, base: nat, k: nat)
    requires Writable(r) && k == |Encode(s, r)|
    ensures ParseFrom(s, Encode(s, r) + rest, base) == Resumed([View(r, base)], ParseFrom(s, rest, base + k))
  {
    var e := Encode(s, r);
    ParseEncoded(s, r, rest, base);
    assert (e + rest)[k..] == rest;
    Advance(s, e + rest, base, View(r, base), k, rest);
  }

  lemma InsideStep(rs: seq<Rec>, n: nat, base: nat, k: nat, rest: seq<Rec>)
    requires rs != [] && k == Size(rs[0]) && rest == rs[1..]
    ensures k > n ==> Inside(rs, n, base) == []
    ensures k <= n ==> Inside(rs, n, base) == [View(rs[0], base)] + Inside(rest, n - k, base + k)
  {
  }

  lemma AllCons(s: Sums, rs: seq<Rec>, e: seq<byte>, rest: seq<Rec>)
    requires AllWritable(rs) && rs != [] && e == Encode(s, rs[0]) && rest == rs[1..]
    ensures EncodeAll(s, rs) == e + EncodeAll(s, rest)
  {
  }

  lemma AllStep(s: Sums, rs: seq<Rec>, e: seq<byte>, rest: seq<Rec>, n: nat)
    requires AllWritable(rs) && rs != [] && e == Encode(s, rs[0]) && rest == rs[1..]
    requires n <= |EncodeAll(s, rs)|
    ensures EncodeAll(s, rs) == e + EncodeAll(s, rest)
    ensures n < |e| ==> EncodeAll(s, rs)[..n] == e[..n]
    ensures n >= |e| ==> n - |e| <= |EncodeAll(s, rest)| && EncodeAll(s, rs)[..n] == e + EncodeAll(s, rest)[..n - |e|]
  {
    PrefixOfConcat(e, EncodeAll(s, rest), n);
  }

  // ---------------------------------------------------------------- whole records, then bytes that stop the parser

  /** Whole records as a reader sees them. */
  function Views(rs: seq<Rec>, base: nat): seq<WalRecord>
    decreases |rs|
  {
    if rs == [] then [] else [View(rs[0], base)] + Views(rs[1..], base + Size(rs[0]))
  }

  // Whole records in front of anything.
  function Before(s: Sums, rs: seq<Rec>, tail: seq<byte>): seq<byte>
    requires AllWritable(rs)
  {
    if rs == [] then tail else Encode(s, rs[0]) + Before(s, rs[1..], tail)
  }

  lemma {:induction false} BeforeIs(s: Sums, rs: seq<Rec>, tail: seq<byte>)
    requires AllWritable(rs)
    ensures Before(s, rs, tail) == EncodeAll(s, rs) + tail
  {
    if rs == [] {
      assert [] + tail == tail;
    } else {
      BeforeIs(s, rs[1..], tail);
      Regrouped(Encode(s, rs[0]), EncodeAll(s, rs[1..]), tail);
    }
  }

  lemma Regrouped(e: seq<byte>, more: seq<byte>, tail: seq<byte>)
    ensures (e + more) + tail == e + (more + tail)
  {
  }

  lemma BeforeStep(s: Sums, rs: seq<Rec>, tail: seq<byte>, base: nat, k: nat, rest: seq<Rec>)
    requires AllWritable(rs) && rs != [] && k == |Encode(s, rs[0])| && rest == rs[1..]
    ensures ParseFrom(s, Before(s, rs, tail), base)
         == Resumed([View(rs[0], base)], ParseFrom(s, Before(s, rest, tail), base + k))
  {
    ParseWhole(s, rs[0], Before(s, rest, tail), base, k);
  }

  ghost predicate ParsesAs(s: Sums, rs: seq<Rec>, tail: seq<byte>, base: nat, p: Parse) {
    AllWritable(rs) && p == ParseFrom(s, Before(s, rs, tail), base)
  }

  ghost predicate StopsParser(s: Sums, tail: seq<byte>) {
    forall at {:trigger ParseOne(s, tail, at)} :: ParseOne(s, tail, at) == Stop
  }

  lemma SomeParse(s: Sums, rs: seq<Rec>, tail: seq<byte>, base: nat) returns (p: Parse)
    requires AllWritable(rs)
    ensures ParsesAs(s, rs, tail, base, p)
  {
    p := ParseFrom(s, Before(s, rs, tail), base);
  }

  lemma ParsesFirst(s: Sums, rs: seq<Rec>, tail: seq<byte>, base: nat, k: nat, rest: seq<Rec>, p: Parse, q: Parse)
    requires rs != [] && k == Size(rs[0]) && rest == rs[1..]
    requires ParsesAs(s, rs, tail, base, p) && ParsesAs(s, rest, tail, base + k, q)
    ensures p == Resumed([View(rs[0], base)], q)
  {
    SizeIs(s, rs[0]);
    BeforeStep(s, rs, tail, base, k, rest);
  }

  lemma ParsesNone(s: Sums, tail: seq<byte>, base: nat, p: Parse)
    requires ParsesAs(s, [], tail, base, p) && StopsParser(s, tail)
    ensures p == Records([])
  {
    ParseStop(s, tail, base);
  }

  /** The parser reads the whole records and stops where the bytes after them do. */
  lemma {:induction false} ParseUpTo(s: Sums, rs: seq<Rec>, tail: seq<byte>, base: nat, p: Parse)
    requires ParsesAs(s, rs, tail, base, p) && StopsParser(s, tail)
    ensures p == Records(Views(rs, base))
    decreases |rs|
  {
    if rs == [] {
      ParsesNone(s, tail, base, p);
    } else {
      var k, rest := Size(rs[0]), rs[1..];
      var q := SomeParse(s, rest, tail, base + k);
      ParseUpTo(s, rest, tail, base + k, q);
      ParsesFirst(s, rs, tail, base, k, rest, p, q);
    }
  }

  // ---------------------------------------------------------------- torn tails

  /** How many records lie wholly inside the first `n` bytes. */
  function Fit(rs: seq<Rec>, n: nat): (k: nat)
    ensures k <= |rs|
    decreases |rs|
  {
    if rs == [] || Size(rs[0]) > n then 0 else 1 + Fit(rs[1..], n - Size(rs[0]))
  }

  /** The bytes of the record that the cut at `n` runs through. */
  function Torn(s: Sums, rs: seq<Rec>, n: nat): seq<byte>
    requires AllWritable(rs)
    decreases |rs|
  {
    if rs == [] then []
    else if Size(rs[0]) > n then Encode(s, rs[0])[..if n < |Encode(s, rs[0])| then n else 0]
    else Torn(s, rs[1..], n - Size(rs[0]))
  }

  /** The records wholly inside a cut are those in front of it. */
  lemma {:induction false} WhollyInside(rs: seq<Rec>, n: nat, base: nat)
    ensures Inside(rs, n, base) == Views(rs[..Fit(rs, n)], base)
    decreases |rs|
  {
    if rs != [] && Size(rs[0]) <= n {
      WhollyInside(rs[1..], n - Size(rs[0]), base + Size(rs[0]));
      assert rs[..Fit(rs, n)][1..] == rs[1..][..Fit(rs, n) - 1];
    }
  }

  /** A cut log is those records and the bytes of the torn one. */
  lemma {:induction false} CutLog(s: Sums, rs: seq<Rec>, n: nat)
    requires AllWritable(rs) && n <= |EncodeAll(s, rs)|
    ensures EncodeAll(s, rs)[..n] == Before(s, rs[..Fit(rs, n)], Torn(s, rs, n))
    decreases |rs|
  {
    if rs != [] {
      SizeIs(s, rs[0]);
      AllStep(s, rs, Encode(s, rs[0]), rs[1..], n);
      if Size(rs[0]) <= n {
        CutLog(s, rs[1..], n - Size(rs[0]));
        assert rs[..Fit(rs, n)][1..] == rs[1..][..Fit(rs, n) - 1];
      }
    }
  }

  /** A torn record stops the parser wherever it stands. */
  lemma {:induction false} TornStops(s: Sums, rs: seq<Rec>, n: nat, at: nat)
    requires AllWritable(rs)
    ensures ParseOne(s, Torn(s, rs, n), at) == Stop
    decreases |rs|
  {
    if rs != [] {
      SizeIs(s, rs[0]);
      if Size(rs[0]) > n {
        ParseTorn(s, rs[0], n, at);
      } else {
        TornStops(s, rs[1..], n - Size(rs[0]), at);
      }
    }
  }

  /** Parsing any byte prefix of a written log gives exactly the records wholly inside it. */
  lemma TornTail(s: Sums, rs: seq<Rec>, n: nat, base: nat)
    requires AllWritable(rs) && n <= |EncodeAll(s, rs)|
    ensures ParseFrom(s, EncodeAll(s, rs)[..n], base) == Records(Inside(rs, n, base))
  {
    var tail := Torn(s, rs, n);
    forall at: nat ensures ParseOne(s, tail, at) == Stop {
      TornStops(s, rs, n, at);
    }
    CutLog(s, rs, n);
    WhollyInside(rs, n, base);
    var p := SomeParse(s, rs[..Fit(rs, n)], tail, base);
    ParseUpTo(s, rs[..Fit(rs, n)], tail, base, p);
  }
}
