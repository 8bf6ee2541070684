/** The two table-driven CRCs that guard WAL records, over one parametric polynomial. */
module Crc {
  import opened Bytes
  import opened BitStrings

  /** A 32-bit register, least significant bit first. */
  type Reg = s: seq<bool> | |s| == 32 witness Zeros(32)

  /** Reflected IEEE 802.3 polynomial, and the reflected Castagnoli one of section 12.1 of RFC 3720. */
  const IEEE: Reg := ToBits(0xEDB8_8320, 32)
  const CASTAGNOLI: Reg := ToBits(0x82F6_3B78, 32)
  const ONES: Reg := ToBits(0xFFFF_FFFF, 32)

  function Zeros(n: nat): (s: seq<bool>)
    ensures |s| == n && forall i :: 0 <= i < n ==> !s[i]
  {
    if n == 0 then [] else [false] + Zeros(n - 1)
  }

  function Xor(x: seq<bool>, y: seq<bool>): (z: seq<bool>)
    requires |x| == |y|
    ensures |z| == |x| && forall i :: 0 <= i < |x| ==> z[i] == (x[i] != y[i])
  {
    if x == [] then [] else [x[0] != y[0]] + Xor(x[1..], y[1..])
  }

  /** `u32::from(b)`. */
  function Word(b: byte): Reg {
    ToBits(b, 8) + Zeros(24)
  }

  /** One shift of the reflected register: `if c & 1 != 0 { POLY ^ (c >> 1) } else { c >> 1 }`. */
  function Shift(poly: Reg, c: Reg): Reg {
    if c[0] then Xor(poly, c[1..] + [false]) else c[1..] + [false]
  }

  function Shifts(poly: Reg, n: nat, c: Reg): Reg
    decreases n
  {
    if n == 0 then c else Shifts(poly, n - 1, Shift(poly, c))
  }

  function Register(poly: Reg, c: Reg, data: seq<byte>): Reg
    decreases |data|
  {
    if data == [] then c else Register(poly, Shifts(poly, 8, Xor(c, Word(data[0]))), data[1..])
  }

  function Checksum(poly: Reg, data: seq<byte>): Reg {
    Xor(Register(poly, ONES, data), ONES)
  }

  // ---------------------------------------------------------------- algebra of the shift

  lemma ShiftLinear(poly: Reg, x: Reg, y: Reg)
    ensures Shift(poly, Xor(x, y)) == Xor(Shift(poly, x), Shift(poly, y))
  {
  }

  lemma {:induction false} ShiftsLinear(poly: Reg, n: nat, x: Reg, y: Reg)
    ensures Shifts(poly, n, Xor(x, y)) == Xor(Shifts(poly, n, x), Shifts(poly, n, y))
    decreases n
  {
    if n > 0 {
      ShiftLinear(poly, x, y);
      ShiftsLinear(poly, n - 1, Shift(poly, x), Shift(poly, y));
    }
  }

  /** Low zero bits slide out of the register untouched. */
  lemma {:induction false} ShiftsSlide(poly: Reg, n: nat, x: Reg)
    requires n <= 32 && forall i :: 0 <= i < n ==> !x[i]
    ensures Shifts(poly, n, x) == x[n..] + Zeros(n)
    decreases n
  {
    if n == 0 {
      assert x[0..] + Zeros(0) == x;
    } else {
      var y := Shift(poly, x);
      ShiftsSlide(poly, n - 1, y);
      assert y[n - 1..] + Zeros(n - 1) == x[n..] + Zeros(n);
    }
  }

  function LowByte(x: Reg): Reg {
    x[..8] + Zeros(24)
  }

  function ShiftRight8(x: Reg): Reg {
    x[8..] + Zeros(8)
  }

  /** The identity behind the 256-entry table. */
  lemma TableStep(poly: Reg, x: Reg)
    ensures Shifts(poly, 8, x) == Xor(ShiftRight8(x), Shifts(poly, 8, LowByte(x)))
  {
    var high: Reg := Zeros(8) + x[8..];
    assert x == Xor(high, LowByte(x));
    ShiftsLinear(poly, 8, high, LowByte(x));
    ShiftsSlide(poly, 8, high);
    assert high[8..] == x[8..];
  }

  /** The shift loses nothing when the polynomial has its top bit, as both do. */
  lemma ShiftInjective(poly: Reg, x: Reg, y: Reg)
    requires poly[31]
    requires Shift(poly, x) == Shift(poly, y)
    ensures x == y
  {
    assert Shift(poly, x)[31] == x[0] && Shift(poly, y)[31] == y[0];
    forall i | 0 < i < 32 ensures x[i] == y[i] {
      assert Shift(poly, x)[i - 1] == (x[i] != (x[0] && poly[i - 1]));
      assert Shift(poly, y)[i - 1] == (y[i] != (y[0] && poly[i - 1]));
    }
  }

  lemma {:induction false} ShiftsInjective(poly: Reg, n: nat, x: Reg, y: Reg)
    requires poly[31]
    requires Shifts(poly, n, x) == Shifts(poly, n, y)
    ensures x == y
    decreases n
  {
    if n > 0 {
      ShiftsInjective(poly, n - 1, Shift(poly, x), Shift(poly, y));
      ShiftInjective(poly, x, y);
    }
  }

  lemma {:induction false} ShiftsAdd(poly: Reg, m: nat, n: nat, c: Reg)
    ensures Shifts(poly, n, Shifts(poly, m, c)) == Shifts(poly, m + n, c)
    decreases m
  {
    if m > 0 {
      ShiftsAdd(poly, m - 1, n, Shift(poly, c));
    }
  }

  lemma XorCancel(x: seq<bool>, y: seq<bool>, b: seq<bool>)
    requires |x| == |y| == |b| && Xor(x, b) == Xor(y, b)
    ensures x == y
  {
    forall i | 0 <= i < |x| ensures x[i] == y[i] {
      assert Xor(x, b)[i] == Xor(y, b)[i];
    }
  }

  // ---------------------------------------------------------------- one bit at a time

  /** The message as a bit stream, each byte least significant bit first. */
  function MessageBits(data: seq<byte>): (s: seq<bool>)
    ensures |s| == 8 * |data|
  {
    if data == [] then [] else ToBits(data[0], 8) + MessageBits(data[1..])
  }

  lemma {:induction false} MessageBitsInjective(a: seq<byte>, b: seq<byte>)
    requires |a| == |b| && MessageBits(a) == MessageBits(b)
    ensures a == b
  {
    if a != [] {
      assert ToBits(a[0], 8) == MessageBits(a)[..8] == MessageBits(b)[..8] == ToBits(b[0], 8);
      assert Pow2(8) == 256 by { assert Pow2(3) == 8; assert Pow2(6) == 64; }
      NatOfBits(a[0], 8);
      NatOfBits(b[0], 8);
      assert MessageBits(a[1..]) == MessageBits(a)[8..] == MessageBits(b)[8..] == MessageBits(b[1..]);
      MessageBitsInjective(a[1..], b[1..]);
    }
  }

  /** The serial circuit: each message bit joins the low end of the register, which then shifts. */
  function Feed(poly: Reg, c: Reg, bits: seq<bool>): Reg
    decreases |bits|
  {
    if bits == [] then c else Feed(poly, Shift(poly, Xor(c, [bits[0]] + Zeros(31))), bits[1..])
  }

  lemma {:induction false} FeedConcat(poly: Reg, c: Reg, a: seq<bool>, b: seq<bool>)
    ensures Feed(poly, c, a + b) == Feed(poly, Feed(poly, c, a), b)
    decreases |a|
  {
    if a == [] {
      assert a + b == b;
    } else {
      assert (a + b)[1..] == a[1..] + b;
      FeedConcat(poly, Shift(poly, Xor(c, [a[0]] + Zeros(31))), a[1..], b);
    }
  }

  lemma {:induction false} FeedInjective(poly: Reg, x: Reg, y: Reg, bits: seq<bool>)
    requires poly[31] && Feed(poly, x, bits) == Feed(poly, y, bits)
    ensures x == y
    decreases |bits|
  {
    if bits != [] {
      var b := [bits[0]] + Zeros(31);
      FeedInjective(poly, Shift(poly, Xor(x, b)), Shift(poly, Xor(y, b)), bits[1..]);
      ShiftInjective(poly, Xor(x, b), Xor(y, b));
      XorCancel(x, y, b);
    }
  }

  function Padded(bits: seq<bool>): Reg
    requires |bits| <= 32
  {
    bits + Zeros(32 - |bits|)
  }

  lemma PaddedStep(poly: Reg, c: Reg, bits: seq<bool>)
    requires 0 < |bits| <= 32
    ensures Shift(poly, Xor(c, Padded(bits)))
         == Xor(Shift(poly, Xor(c, [bits[0]] + Zeros(31))), Padded(bits[1..]))
  {
    var low: Reg := [bits[0]] + Zeros(31);
    var rest: Reg := [false] + bits[1..] + Zeros(32 - |bits|);
    assert Xor(c, Padded(bits)) == Xor(Xor(c, low), rest);
    ShiftLinear(poly, Xor(c, low), rest);
    assert Shift(poly, rest) == Padded(bits[1..]);
  }

  /** Up to 32 bits act on the register as one word. */
  lemma {:induction false} FeedWord(poly: Reg, c: Reg, bits: seq<bool>)
    requires |bits| <= 32
    ensures Feed(poly, c, bits) == Shifts(poly, |bits|, Xor(c, Padded(bits)))
    decreases |bits|
  {
    if bits == [] {
      assert Xor(c, Padded(bits)) == c;
    } else {
      PaddedStep(poly, c, bits);
      FeedWord(poly, Shift(poly, Xor(c, [bits[0]] + Zeros(31))), bits[1..]);
    }
  }

  /** Eight shifts per byte are the serial circuit run over the message bits. */
  lemma {:induction false} RegisterIsFeed(poly: Reg, c: Reg, data: seq<byte>)
    ensures Register(poly, c, data) == Feed(poly, c, MessageBits(data))
    decreases |data|
  {
    if data != [] {
      FeedWord(poly, c, ToBits(data[0], 8));
      RegisterIsFeed(poly, Shifts(poly, 8, Xor(c, Word(data[0]))), data[1..]);
      FeedConcat(poly, c, ToBits(data[0], 8), MessageBits(data[1..]));
    }
  }

  // ---------------------------------------------------------------- polynomial division

  /**
   * Long division over GF(2): `m` lists the coefficients of the dividend from the highest power,
   * `g` those of the divisor below its leading `x^32`.
   */
  function Remainder(g: Reg, m: seq<bool>): Reg
    requires |m| >= 32
    decreases |m|
  {
    if |m| == 32 then m
    else if m[0] then Remainder(g, Xor(m[1..33], g) + m[33..])
    else Remainder(g, m[1..])
  }

  function XorFront(c: Reg, m: seq<bool>): (r: seq<bool>)
    requires |m| >= 32
    ensures |r| == |m|
  {
    Xor(c, m[..32]) + m[32..]
  }

  lemma DivisionStep(poly: Reg, c: Reg, b: bool, rest: seq<bool>)
    requires |rest| >= 32
    ensures var m := XorFront(c, [b] + rest);
      (if m[0] then Xor(m[1..33], poly) + m[33..] else m[1..])
      == XorFront(Shift(poly, Xor(c, [b] + Zeros(31))), rest)
  {
    var m := XorFront(c, [b] + rest);
    var x: Reg := Xor(c, [b] + Zeros(31));
    var s := Shift(poly, x);
    assert m[0] == x[0];
    assert m[33..] == rest[32..];
    forall i | 0 <= i < 32 ensures m[i + 1] == ((x[1..] + [false])[i] != rest[i]) {
    }
    var l := if m[0] then Xor(m[1..33], poly) + m[33..] else m[1..];
    var r := XorFront(s, rest);
    assert |l| == |r| == |rest|;
    forall i | 0 <= i < |rest| ensures l[i] == r[i] {
      if i < 32 {
        assert m[1..33][i] == m[i + 1];
      } else {
        assert m[i + 1] == rest[i];
      }
    }
  }

  lemma {:induction false} FeedDivides(poly: Reg, c: Reg, bits: seq<bool>)
    ensures Remainder(poly, XorFront(c, bits + Zeros(32))) == Feed(poly, c, bits)
    decreases |bits|
  {
    if bits == [] {
      assert XorFront(c, bits + Zeros(32)) == c;
    } else {
      assert bits + Zeros(32) == [bits[0]] + (bits[1..] + Zeros(32));
      DivisionStep(poly, c, bits[0], bits[1..] + Zeros(32));
      FeedDivides(poly, Shift(poly, Xor(c, [bits[0]] + Zeros(31))), bits[1..]);
    }
  }

  /**
   * The checksum is the complement of the remainder of message * x^32, its first 32 coefficients
   * complemented, by the generator.
   */
  lemma ChecksumIsRemainder(poly: Reg, data: seq<byte>)
    ensures Checksum(poly, data) == Xor(Remainder(poly, XorFront(ONES, MessageBits(data) + Zeros(32))), ONES)
  {
    var start: Reg := ONES;
    RegisterIsFeed(poly, start, data);
    FeedDivides(poly, start, MessageBits(data));
  }

  // ---------------------------------------------------------------- bursts

  lemma Climb(k: nat, p: nat) returns (k': nat)
    requires Pow2(k) == p
    ensures k' == k + 4 && Pow2(k') == 16 * p
  {
    k' := k + 4;
    assert Pow2(k + 1) == 2 * p;
    assert Pow2(k + 2) == 4 * p;
    assert Pow2(k + 3) == 8 * p;
  }

  lemma HalfWord() returns (k: nat)
    ensures k == 31 && Pow2(k) == 0x8000_0000
  {
    k := 3;
    assert Pow2(k) == 8;
    k := Climb(k, 8);
    k := Climb(k, 0x80);
    k := Climb(k, 0x800);
    k := Climb(k, 0x8000);
    k := Climb(k, 0x8_0000);
    k := Climb(k, 0x80_0000);
    k := Climb(k, 0x800_0000);
  }

  lemma TopBit(n: nat)
    requires 0x8000_0000 <= n < 0x1_0000_0000
    ensures ToBits(n, 32)[31]
  {
    var k := HalfWord();
    TopBitSet(n, k);
  }

  /** Both polynomials carry their constant term, which lands in the reflected top bit. */
  lemma PolynomialsInvertible()
    ensures IEEE[31] && CASTAGNOLI[31]
  {
    TopBit(0xEDB8_8320);
    TopBit(0x82F6_3B78);
  }

  lemma PaddedInjective(c: Reg, w1: seq<bool>, w2: seq<bool>)
    requires |w1| == |w2| <= 32 && Xor(c, Padded(w1)) == Xor(c, Padded(w2))
    ensures w1 == w2
  {
    forall i | 0 <= i < |w1| ensures w1[i] == w2[i] {
      assert Xor(c, Padded(w1))[i] == Xor(c, Padded(w2))[i];
    }
  }

  lemma FeedBurst(poly: Reg, c: Reg, w1: seq<bool>, w2: seq<bool>, tail: seq<bool>)
    requires poly[31] && |w1| == |w2| <= 32
    requires Feed(poly, c, w1 + tail) == Feed(poly, c, w2 + tail)
    ensures w1 == w2
  {
    FeedConcat(poly, c, w1, tail);
    FeedConcat(poly, c, w2, tail);
    FeedInjective(poly, Feed(poly, c, w1), Feed(poly, c, w2), tail);
    FeedWord(poly, c, w1);
    FeedWord(poly, c, w2);
    ShiftsInjective(poly, |w1|, Xor(c, Padded(w1)), Xor(c, Padded(w2)));
    PaddedInjective(c, w1, w2);
  }

  lemma SplitAt<T>(m: seq<T>, at: nat, len: nat)
    requires at + len <= |m|
    ensures m == m[..at] + (m[at..at + len] + m[at + len..])
  {
  }

  /**
   * No burst of at most 32 bits keeps the checksum: messages whose bits agree outside such a
   * window and whose checksums are equal are equal.
   */
  lemma BurstDetected(poly: Reg, m1: seq<byte>, m2: seq<byte>, at: nat, len: nat)
    requires poly[31] && |m1| == |m2|
    requires len <= 32 && at + len <= 8 * |m1|
    requires MessageBits(m1)[..at] == MessageBits(m2)[..at]
    requires MessageBits(m1)[at + len..] == MessageBits(m2)[at + len..]
    requires Checksum(poly, m1) == Checksum(poly, m2)
    ensures m1 == m2
  {
    var b1, b2, start: Reg := MessageBits(m1), MessageBits(m2), ONES;
    SplitAt(b1, at, len);
    SplitAt(b2, at, len);
    XorCancel(Register(poly, start, m1), Register(poly, start, m2), start);
    RegisterIsFeed(poly, start, m1);
    RegisterIsFeed(poly, start, m2);
    FeedConcat(poly, start, b1[..at], b1[at..at + len] + b1[at + len..]);
    FeedConcat(poly, start, b2[..at], b2[at..at + len] + b2[at + len..]);
    FeedBurst(poly, Feed(poly, start, b1[..at]), b1[at..at + len], b2[at..at + len], b1[at + len..]);
    MessageBitsInjective(m1, m2);
  }
}
