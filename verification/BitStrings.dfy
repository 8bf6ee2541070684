/** Unsigned machine words seen as bits, least significant first. */
module BitStrings {
  function Pow2(k: nat): (p: nat)
    ensures p > 0
  {
    if k == 0 then 1 else 2 * Pow2(k - 1)
  }

  /** The low `k` bits of `n`. */
  function ToBits(n: nat, k: nat): (s: seq<bool>)
    ensures |s| == k
  {
    if k == 0 then [] else [n % 2 == 1] + ToBits(n / 2, k - 1)
  }

  function Nat(s: seq<bool>): nat {
    if s == [] then 0 else (if s[0] then 1 else 0) + 2 * Nat(s[1..])
  }

  lemma {:induction false} NatOfBits(n: nat, k: nat)
    requires n < Pow2(k)
    ensures Nat(ToBits(n, k)) == n
  {
    if k > 0 {
      NatOfBits(n / 2, k - 1);
      assert ToBits(n, k)[1..] == ToBits(n / 2, k - 1);
    }
  }

  lemma {:induction false} BitsOfNat(s: seq<bool>)
    ensures ToBits(Nat(s), |s|) == s
    ensures Nat(s) < Pow2(|s|)
  {
    if s != [] {
      BitsOfNat(s[1..]);
      assert Nat(s) / 2 == Nat(s[1..]);
      assert s == [s[0]] + s[1..];
    }
  }

  /** `n >> i`. */
  function ShiftedRight(n: nat, i: nat): nat
    decreases i
  {
    if i == 0 then n else ShiftedRight(n / 2, i - 1)
  }

  lemma {:induction false} BitAt(n: nat, k: nat, i: nat)
    requires i < k
    ensures ToBits(n, k)[i] == (ShiftedRight(n, i) % 2 == 1)
    decreases i
  {
    if i > 0 {
      BitAt(n / 2, k - 1, i - 1);
      assert ToBits(n, k)[i] == ToBits(n / 2, k - 1)[i - 1];
    }
  }

  /** The highest bit of a number that needs all of them is set. */
  lemma {:induction false} TopBitSet(n: nat, k: nat)
    requires Pow2(k) <= n < 2 * Pow2(k)
    ensures ToBits(n, k + 1)[k]
    decreases k
  {
    if k > 0 {
      TopBitSet(n / 2, k - 1);
      assert ToBits(n, k + 1)[k] == ToBits(n / 2, k)[k - 1];
    }
  }
}
