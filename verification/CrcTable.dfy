/** Table construction, the byte-at-a-time loop, and the once-initialisation of the shared table. */
module CrcTable {
  import opened Bytes
  import opened BitStrings
  import opened Crc

  ghost predicate TableFor(poly: Reg, table: seq<Reg>) {
    |table| == 256 && forall i: byte :: table[i] == Shifts(poly, 8, Word(i))
  }

  method BuildEntry(poly: Reg, i: byte) returns (c: Reg)
    ensures c == Shifts(poly, 8, Word(i))
  {
    c := Word(i);
    var n := 0;
    while n < 8
      invariant 0 <= n <= 8
      invariant Shifts(poly, 8 - n, c) == Shifts(poly, 8, Word(i))
    {
      c := Shift(poly, c);
      n := n + 1;
    }
  }

  method BuildTable(poly: Reg, table: array<Reg>)
    requires table.Length == 256
    modifies table
    ensures TableFor(poly, table[..])
  {
    var i := 0;
    while i < 256
      invariant 0 <= i <= 256
      invariant forall k: byte :: k < i ==> table[k] == Shifts(poly, 8, Word(k))
    {
      var c := BuildEntry(poly, i);
      table[i] := c;
      i := i + 1;
    }
  }

  lemma TableLookup(poly: Reg, table: seq<Reg>, x: Reg)
    requires TableFor(poly, table)
    ensures Nat(x[..8]) < 256
    ensures Xor(ShiftRight8(x), table[Nat(x[..8])]) == Shifts(poly, 8, x)
  {
    BitsOfNat(x[..8]);
    assert Pow2(8) == 256 by { assert Pow2(3) == 8; assert Pow2(6) == 64; }
    var i: byte := Nat(x[..8]);
    assert Word(i) == LowByte(x);
    TableStep(poly, x);
  }

  lemma ShiftRightXor(c: Reg, b: byte)
    ensures ShiftRight8(c) == ShiftRight8(Xor(c, Word(b)))
  {
  }

  /** `crc32` / `crc32c`: one table lookup per byte. */
  method TableChecksum(poly: Reg, table: array<Reg>, data: seq<byte>) returns (crc: Reg)
    requires TableFor(poly, table[..])
    ensures crc == Checksum(poly, data)
    ensures crc == Xor(Remainder(poly, XorFront(ONES, MessageBits(data) + Zeros(32))), ONES)
  {
    crc := ONES;
    var i := 0;
    while i < |data|
      invariant 0 <= i <= |data|
      invariant Register(poly, crc, data[i..]) == Register(poly, ONES, data)
    {
      ghost var before := crc;
      var x: Reg := Xor(crc, Word(data[i]));
      TableLookup(poly, table[..], x);
      ShiftRightXor(crc, data[i]);
      crc := Xor(ShiftRight8(crc), table[Nat(x[..8])]);
      assert crc == Shifts(poly, 8, Xor(before, Word(data[i])));
      assert data[i..][1..] == data[i + 1..];
      i := i + 1;
    }
    crc := Xor(crc, ONES);
    ChecksumIsRemainder(poly, data);
  }
}
