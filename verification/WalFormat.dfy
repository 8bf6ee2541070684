/** The on-disk WAL record formats v1 to v6: encoders and the record parser, over any checksums. */
module WalFormat {
  import opened Bytes
  import opened Wrappers

  const V2_SENTINEL := 0x8000_0000
  const V3_FLAG := 0x4000_0000
  const V6_FLAG := 0x2000_0000

  const AUTO_COMMIT_V3: byte := 0x01
  const DURABILITY_CHECKPOINT: byte := 0x02
  const AUTO_COMMIT: byte := 0x10
  const CHECKPOINT_MARKER: byte := 0x11
  const TX_COMMIT: byte := 0x12
  const ROW_REDO: byte := 0x13

  const SCHEME_CRC32C: byte := 0
  const SCHEME_BLAKE3: byte := 1

  /** `WAL_V4_NO_CLOCK`: the timestamp of a record written without a clock. */
  const NO_CLOCK := -I64_LIMIT

  type u32 = x: int | 0 <= x < U32_LIMIT
  type Digest = d: seq<byte> | |d| == 32 witness LE(0, 32)

  /** The CRC-32 of v3 to v5, the CRC-32C of v6 and the optional payload digest. */
  datatype Sums = Sums(crc: seq<byte> -> u32, crcC: seq<byte> -> u32, blake3: seq<byte> -> Digest)

  datatype WalRecord = WalRecord(
    offset: nat,
    typeByte: byte,
    commitLsn: Option<nat>,
    commitUnixUs: Option<int>,
    prevLsn: Option<nat>,
    sql: seq<byte>)

  datatype ParseError = MarkerTooShort(at: nat) | MarkerTruncatedPath(at: nat) | UnknownType(typeByte: byte, at: nat)

  datatype Parse = Records(records: seq<WalRecord>) | Corrupt(error: ParseError)

  function ClockOf(ts: int): Option<int> {
    if ts == NO_CLOCK then None else Some(ts)
  }

  // ---------------------------------------------------------------- encoders

  /** `len | bit` for a single bit of a `u32`. */
  function OrBit(x: nat, bit: nat): nat
    requires bit > 0
  {
    if (x / bit) % 2 == 1 then x else x + bit
  }

  function V3Header(len: nat): seq<byte> {
    LE(OrBit(OrBit(len % U32_LIMIT, V2_SENTINEL), V3_FLAG), 4)
  }

  function V6Header(len: nat): seq<byte> {
    LE(OrBit(OrBit(OrBit(len % U32_LIMIT, V2_SENTINEL), V3_FLAG), V6_FLAG), 4)
  }

  predicate Lsn(n: nat) {
    n < U64_LIMIT
  }

  predicate Micros(ts: int) {
    -I64_LIMIT <= ts < I64_LIMIT
  }

  function EncodeV3(s: Sums, payload: seq<byte>): seq<byte> {
    V3Header(|payload|) + LE(s.crc([AUTO_COMMIT_V3] + payload), 4) + [AUTO_COMMIT_V3] + payload
  }

  function V4Stamp(lsn: nat, ts: int): (f: seq<byte>)
    requires Lsn(lsn) && Micros(ts)
    ensures |f| == 16
  {
    LE(lsn, 8) + LE(I64Bits(ts), 8)
  }

  function EncodeV4(s: Sums, typeByte: byte, payload: seq<byte>, lsn: nat, ts: int): seq<byte>
    requires Lsn(lsn) && Micros(ts)
  {
    V3Header(|payload|) + LE(s.crc([typeByte] + (V4Stamp(lsn, ts) + payload)), 4) + [typeByte] + (V4Stamp(lsn, ts) + payload)
  }

  /** The v4 marker keeps at most 65535 bytes of the snapshot path. */
  function V4MarkerPath(path: seq<byte>): seq<byte> {
    if |path| < U16_LIMIT then path else path[..U16_LIMIT - 1]
  }

  function V4MarkerPayload(lsn: nat, ts: int, path: seq<byte>): (f: seq<byte>)
    requires Lsn(lsn) && Micros(ts)
    ensures |f| == 18 + |V4MarkerPath(path)|
  {
    V4Stamp(lsn, ts) + (LE(|V4MarkerPath(path)|, 2) + V4MarkerPath(path))
  }

  function EncodeV4Marker(s: Sums, lsn: nat, ts: int, path: seq<byte>): seq<byte>
    requires Lsn(lsn) && Micros(ts)
  {
    var payload := V4MarkerPayload(lsn, ts, path);
    V3Header(|payload|) + LE(s.crc([CHECKPOINT_MARKER] + payload), 4) + [CHECKPOINT_MARKER] + payload
  }

  function V6Stamp(typeByte: byte, prev: nat, lsn: nat, ts: int, scheme: byte): (f: seq<byte>)
    requires Lsn(prev) && Lsn(lsn) && Micros(ts)
    ensures |f| == 26
  {
    [typeByte] + LE(prev, 8) + LE(lsn, 8) + LE(I64Bits(ts), 8) + [scheme]
  }

  function V6Body(s: Sums, scheme: byte, typeByte: byte, payload: seq<byte>, prev: nat, lsn: nat, ts: int): seq<byte>
    requires Lsn(prev) && Lsn(lsn) && Micros(ts)
  {
    V6Stamp(typeByte, prev, lsn, ts, scheme) + ((if scheme == SCHEME_BLAKE3 then s.blake3(payload) else []) + payload)
  }

  function EncodeV6(s: Sums, scheme: byte, typeByte: byte, payload: seq<byte>, prev: nat, lsn: nat, ts: int): seq<byte>
    requires Lsn(prev) && Lsn(lsn) && Micros(ts)
  {
    var body := V6Body(s, scheme, typeByte, payload, prev, lsn, ts);
    V6Header(|payload|) + LE(s.crcC(body), 4) + body
  }

  /** The v6 marker appends the whole path but truncates its recorded length to a `u16`. */
  function V6MarkerPayload(lsn: nat, ts: int, path: seq<byte>): seq<byte>
    requires Lsn(lsn) && Micros(ts)
  {
    V4Stamp(lsn, ts) + (LE(|path| % U16_LIMIT, 2) + path)
  }

  // ---------------------------------------------------------------- parser

  datatype One = Stop | Bad(error: ParseError) | Got(record: WalRecord, total: nat)

  predicate IsV2(raw: nat) {
    (raw / V2_SENTINEL) % 2 == 1
  }

  predicate IsV3(raw: nat) {
    IsV2(raw) && (raw / V3_FLAG) % 2 == 1
  }

  predicate IsV6(raw: nat) {
    IsV3(raw) && (raw / V6_FLAG) % 2 == 1
  }

  function LsnAt(b: seq<byte>, i: nat): (n: nat)
    requires i + 8 <= |b|
    ensures Lsn(n)
  {
    FromLEBound(b[i..i + 8]);
    FieldWidths();
    FromLE(b[i..i + 8])
  }

  function MicrosAt(b: seq<byte>, i: nat): (ts: int)
    requires i + 8 <= |b|
    ensures Micros(ts)
  {
    I64FromBits(LsnAt(b, i))
  }

  /** The v6 branch: any truncation, unknown scheme or checksum mismatch ends the scan. */
  function ParseV6(s: Sums, b: seq<byte>, recLen: nat, base: nat): (one: One)
    requires |b| >= 4
    ensures one.Got? ==> 0 < one.total <= |b|
  {
    if |b| < 34 + recLen then Stop
    else
      var scheme := b[33];
      if scheme != SCHEME_BLAKE3 && scheme != SCHEME_CRC32C then Stop
      else
        var at := if scheme == SCHEME_BLAKE3 then 66 else 34;
        if |b| < at + recLen then Stop
        else if s.crcC(b[8..at + recLen]) != FromLE(b[4..8]) then Stop
        else if scheme == SCHEME_BLAKE3 && s.blake3(b[at..at + recLen]) != b[34..66] then Stop
        else
          Got(WalRecord(base, b[8], Some(LsnAt(b, 17)), ClockOf(MicrosAt(b, 25)), Some(LsnAt(b, 9)), b[at..at + recLen]),
              at + recLen)
  }

  function ParseMarker(b: seq<byte>, recLen: nat, base: nat): (one: One)
    requires 9 + recLen <= |b|
    ensures one.Got? ==> 0 < one.total <= |b|
  {
    if recLen < 18 then Bad(MarkerTooShort(base))
    else
      var pathLen := FromLE(b[25..27]);
      if recLen < 18 + pathLen then Bad(MarkerTruncatedPath(base))
      else
        Got(WalRecord(base, CHECKPOINT_MARKER, Some(LsnAt(b, 9)), ClockOf(MicrosAt(b, 17)), None, b[27..27 + pathLen]),
            9 + recLen)
  }

  /** The typed v3, v4 and v5 envelopes; their CRC is not checked here. */
  function ParseTyped(b: seq<byte>, recLen: nat, base: nat): (one: One)
    requires 9 + recLen <= |b|
    ensures one.Got? ==> 0 < one.total <= |b|
  {
    var t := b[8];
    if t == AUTO_COMMIT_V3 then Got(WalRecord(base, t, None, None, None, b[9..9 + recLen]), 9 + recLen)
    else if t == DURABILITY_CHECKPOINT then Got(WalRecord(base, t, None, None, None, []), 9 + recLen)
    else if t == CHECKPOINT_MARKER then ParseMarker(b, recLen, base)
    else if t == AUTO_COMMIT || t == TX_COMMIT || t == ROW_REDO then
      if |b| < 25 + recLen then Stop
      else
        Got(WalRecord(base, t, Some(LsnAt(b, 9)), ClockOf(MicrosAt(b, 17)), None, b[25..25 + recLen]), 25 + recLen)
    else Bad(UnknownType(t, base))
  }

  /** The record at the front of `b`, which starts `base` bytes into the chunk. */
  function ParseOne(s: Sums, b: seq<byte>, base: nat): (one: One)
    ensures one.Got? ==> 0 < one.total <= |b|
  {
    if |b| < 4 then Stop
    else
      var raw := FromLE(b[..4]);
      if IsV6(raw) then ParseV6(s, b, raw % V6_FLAG, base)
      else if IsV3(raw) then
        if |b| < 9 + raw % V3_FLAG then Stop else ParseTyped(b, raw % V3_FLAG, base)
      else
        var recLen := raw % V2_SENTINEL;
        var header := if IsV2(raw) then 8 else 4;
        if |b| < header + recLen then Stop
        else Got(WalRecord(base, AUTO_COMMIT_V3, None, None, None, b[header..header + recLen]), header + recLen)
  }

  function ParseFrom(s: Sums, b: seq<byte>, base: nat): Parse
    decreases |b|
  {
    match ParseOne(s, b, base)
    case Stop => Records([])
    case Bad(e) => Corrupt(e)
    case Got(r, total) =>
      match ParseFrom(s, b[total..], base + total)
      case Corrupt(e) => Corrupt(e)
      case Records(rs) => Records([r] + rs)
  }

  // A parse resumed after the records read so far.
  function Resumed(out: seq<WalRecord>, p: Parse): Parse {
    match p
    case Corrupt(e) => Corrupt(e)
    case Records(rs) => Records(out + rs)
  }

  lemma ResumedAfter(out: seq<WalRecord>, rec: WalRecord, p: Parse)
    ensures Resumed(out, Resumed([rec], p)) == Resumed(out + [rec], p)
  {
    match p
    case Corrupt(_) =>
    case Records(rs) => assert out + ([rec] + rs) == out + [rec] + rs;
  }

  lemma Advance(s: Sums, b: seq<byte>, base: nat, rec: WalRecord, total: nat, tail: seq<byte>)
    requires ParseOne(s, b, base) == Got(rec, total) && tail == b[total..]
    ensures ParseFrom(s, b, base) == Resumed([rec], ParseFrom(s, tail, base + total))
  {
  }

  /** `parse_wal_records`: a cursor walks the chunk until a torn or damaged record. */
  method ParseWalRecords(s: Sums, wal: seq<byte>) returns (r: Parse)
    ensures r == ParseFrom(s, wal, 0)
  {
    var out: seq<WalRecord> := [];
    var cur := 0;
    ghost var whole := ParseFrom(s, wal, 0);
    assert wal[0..] == wal;
    while cur < |wal|
      invariant 0 <= cur <= |wal|
      invariant whole == Resumed(out, ParseFrom(s, wal[cur..], cur))
    {
      match ParseOne(s, wal[cur..], cur)
      case Stop =>
        assert out + [] == out;
        return Records(out);
      case Bad(e) =>
        return Corrupt(e);
      case Got(rec, total) =>
        assert wal[cur..][total..] == wal[cur + total..];
        Advance(s, wal[cur..], cur, rec, total, wal[cur + total..]);
        ResumedAfter(out, rec, ParseFrom(s, wal[cur + total..], cur + total));
        out := out + [rec];
        cur := cur + total;
    }
    assert out + [] == out;
    return Records(out);
  }
}
