/**
 * The tree mode of BLAKE3 over an abstract compression function. Every call of
 * the compression is recorded, so that statements about which calls are made,
 * with which counters and flags, are statements about the hash.
 */
module Blake3Tree {
  import opened BitStrings
  import opened Bytes

  const BLOCK_LEN := 64
  const CHUNK_LEN := 1024
  const CHUNK_START := 1
  const CHUNK_END := 2
  const PARENT := 4
  const ROOT := 8

  type Cv = seq<int>

  datatype Block = Message(bytes: seq<byte>) | Children(left: Cv, right: Cv)

  datatype Call = Call(block: Block, counter: nat, len: nat, flags: nat)

  /** The first eight words of `compress`, and the initial chaining value. */
  datatype Primitive = Primitive(compress: (Cv, Call) -> Cv, iv: Cv)

  /** A chaining value with the compressions made to reach it. */
  datatype Traced = Traced(cv: Cv, calls: seq<Call>)

  predicate IsRoot(c: Call) {
    c.flags / ROOT % 2 == 1
  }

  // ---------------------------------------------------------------- one chunk

  function CeilDiv(n: nat, d: nat): nat
    requires d > 0
  {
    (n + d - 1) / d
  }

  function BlockCount(n: nat): (k: nat)
    ensures k >= 1
  {
    if n == 0 then 1 else CeilDiv(n, BLOCK_LEN)
  }

  function ChunkCount(n: nat): (k: nat)
    ensures k >= 1
  {
    if n == 0 then 1 else CeilDiv(n, CHUNK_LEN)
  }

  function BlockCall(input: seq<byte>, counter: nat, root: bool, b: nat): Call
    requires b < BlockCount(|input|)
  {
    var start := b * BLOCK_LEN;
    var end := if start + BLOCK_LEN <= |input| then start + BLOCK_LEN else |input|;
    var last := b == BlockCount(|input|) - 1;
    Call(Message(input[start..end] + LE(0, BLOCK_LEN - (end - start))), counter, end - start,
         (if b == 0 then CHUNK_START else 0) + (if last then CHUNK_END else 0) + (if last && root then ROOT else 0))
  }

  function Compressed(p: Primitive, t: Traced, call: Call): Traced {
    Traced(p.compress(t.cv, call), t.calls + [call])
  }

  function ChunkFrom(p: Primitive, input: seq<byte>, counter: nat, root: bool, b: nat, t: Traced): Traced
    requires b <= BlockCount(|input|)
    decreases BlockCount(|input|) - b
  {
    if b == BlockCount(|input|) then t
    else ChunkFrom(p, input, counter, root, b + 1, Compressed(p, t, BlockCall(input, counter, root, b)))
  }

  function Chunk(p: Primitive, input: seq<byte>, counter: nat, root: bool): Traced {
    ChunkFrom(p, input, counter, root, 0, Traced(p.iv, []))
  }

  /** `hash_chunk`, one block at a time. */
  method HashChunk(p: Primitive, input: seq<byte>, counter: nat, root: bool) returns (cv: Cv, calls: seq<Call>)
    ensures Traced(cv, calls) == Chunk(p, input, counter, root)
  {
    var count := if |input| == 0 then 1 else CeilDiv(|input|, BLOCK_LEN);
    cv, calls := p.iv, [];
    for b := 0 to count
      invariant ChunkFrom(p, input, counter, root, b, Traced(cv, calls)) == Chunk(p, input, counter, root)
    {
      var start := b * BLOCK_LEN;
      var end := if start + BLOCK_LEN <= |input| then start + BLOCK_LEN else |input|;
      var block := input[start..end] + LE(0, BLOCK_LEN - (end - start));
      var flags := 0;
      if b == 0 {
        flags := flags + CHUNK_START;
      }
      if b == count - 1 {
        flags := flags + CHUNK_END;
        if root {
          flags := flags + ROOT;
        }
      }
      var call := Call(Message(block), counter, end - start, flags);
      cv, calls := p.compress(cv, call), calls + [call];
    }
  }

  // ---------------------------------------------------------------- the tree

  // The position of the highest set bit.
  function Log2(n: nat): (k: nat)
    requires n >= 1
    ensures Pow2(k) <= n < 2 * Pow2(k)
  {
    if n == 1 then 0 else 1 + Log2(n / 2)
  }

  ghost predicate IsPow2(n: nat) {
    exists k: nat :: n == Pow2(k)
  }

  function LargestPowerOfTwo(n: nat): (r: nat)
    requires n >= 1
    ensures IsPow2(r) && r <= n < 2 * r
  {
    Pow2(Log2(n))
  }

  function Parent(p: Primitive, left: Traced, right: Traced, root: bool): Traced {
    var call := Call(Children(left.cv, right.cv), 0, BLOCK_LEN, PARENT + (if root then ROOT else 0));
    Traced(p.compress(p.iv, call), left.calls + right.calls + [call])
  }

  function LeftChunks(n: nat): (k: nat)
    requires n > CHUNK_LEN
    ensures 1 <= k && 0 < k * CHUNK_LEN < n
    ensures k <= ChunkCount(n) - 1 < 2 * k
  {
    LargestPowerOfTwo(CeilDiv(n, CHUNK_LEN) - 1)
  }

  function Subtree(p: Primitive, input: seq<byte>, base: nat): Traced
    decreases |input|
  {
    if |input| <= CHUNK_LEN then Chunk(p, input, base, false)
    else
      var k := LeftChunks(|input|);
      Parent(p, Subtree(p, input[..k * CHUNK_LEN], base), Subtree(p, input[k * CHUNK_LEN..], base + k), false)
  }

  /** `hash`, up to the final conversion of words to bytes. */
  function Hash(p: Primitive, input: seq<byte>): Traced {
    if |input| <= CHUNK_LEN then Chunk(p, input, 0, true)
    else
      var k := LeftChunks(|input|);
      Parent(p, Subtree(p, input[..k * CHUNK_LEN], 0), Subtree(p, input[k * CHUNK_LEN..], k), true)
  }

  // ---------------------------------------------------------------- the specification

  datatype Leaf = Leaf(bytes: seq<byte>, counter: nat)

  datatype Tree = Tip(leaf: Leaf) | Fork(left: Tree, right: Tree)

  function Leaves(t: Tree): (r: seq<Leaf>)
    ensures |r| >= 1
  {
    match t
    case Tip(leaf) => [leaf]
    case Fork(left, right) => Leaves(left) + Leaves(right)
  }

  /**
   * Section 2.1 of the BLAKE3 specification: a left subtree is a complete tree
   * of a power of two chunks, at least as many as its right sibling holds.
   */
  ghost predicate LeftBalanced(t: Tree) {
    t.Fork? ==>
      && LeftBalanced(t.left) && LeftBalanced(t.right)
      && IsPow2(|Leaves(t.left)|)
      && |Leaves(t.right)| <= |Leaves(t.left)|
  }

  /** The message cut into chunks of 1024 bytes, numbered from `base`; an empty message is one empty chunk. */
  function Chunks(input: seq<byte>, base: nat): (r: seq<Leaf>)
    ensures |r| == ChunkCount(|input|)
    decreases |input|
  {
    if |input| <= CHUNK_LEN then [Leaf(input, base)]
    else [Leaf(input[..CHUNK_LEN], base)] + Chunks(input[CHUNK_LEN..], base + 1)
  }

  function TreeHash(p: Primitive, t: Tree, root: bool): Traced {
    match t
    case Tip(leaf) => Chunk(p, leaf.bytes, leaf.counter, root)
    case Fork(left, right) => Parent(p, TreeHash(p, left, false), TreeHash(p, right, false), root)
  }

  // The tree the recursion walks.
  function Built(input: seq<byte>, base: nat): Tree
    decreases |input|
  {
    if |input| <= CHUNK_LEN then Tip(Leaf(input, base))
    else
      var k := LeftChunks(|input|);
      Fork(Built(input[..k * CHUNK_LEN], base), Built(input[k * CHUNK_LEN..], base + k))
  }

  lemma {:induction false} SubtreeIsTree(p: Primitive, input: seq<byte>, base: nat)
    ensures Subtree(p, input, base) == TreeHash(p, Built(input, base), false)
    decreases |input|
  {
    if |input| > CHUNK_LEN {
      var k := LeftChunks(|input|);
      SubtreeIsTree(p, input[..k * CHUNK_LEN], base);
      SubtreeIsTree(p, input[k * CHUNK_LEN..], base + k);
    }
  }

  lemma {:induction false} ChunksSplit(input: seq<byte>, base: nat, k: nat)
    requires 1 <= k && k * CHUNK_LEN < |input|
    ensures Chunks(input, base) == Chunks(input[..k * CHUNK_LEN], base) + Chunks(input[k * CHUNK_LEN..], base + k)
    decreases k
  {
    var rest := input[CHUNK_LEN..];
    if k > 1 {
      ChunksSplit(rest, base + 1, k - 1);
      var left := input[..k * CHUNK_LEN];
      assert left[CHUNK_LEN..] == rest[..(k - 1) * CHUNK_LEN];
      assert left[..CHUNK_LEN] == input[..CHUNK_LEN];
      assert input[k * CHUNK_LEN..] == rest[(k - 1) * CHUNK_LEN..];
    }
  }

  /** The leaves of the recursion are the chunks of the message in order, counted up from the base. */
  lemma {:induction false} LeavesAreChunks(input: seq<byte>, base: nat)
    ensures Leaves(Built(input, base)) == Chunks(input, base)
    decreases |input|
  {
    if |input| > CHUNK_LEN {
      var k := LeftChunks(|input|);
      var left, right := input[..k * CHUNK_LEN], input[k * CHUNK_LEN..];
      LeavesAreChunks(left, base);
      LeavesAreChunks(right, base + k);
      ChunksSplit(input, base, k);
      BuiltSplit(input, base, k, left, right);
    }
  }

  lemma BuiltSplit(input: seq<byte>, base: nat, k: nat, left: seq<byte>, right: seq<byte>)
    requires |input| > CHUNK_LEN && k == LeftChunks(|input|)
    requires left == input[..k * CHUNK_LEN] && right == input[k * CHUNK_LEN..]
    ensures Leaves(Built(input, base)) == Leaves(Built(left, base)) + Leaves(Built(right, base + k))
  {
  }

  lemma SplitCounts(n: nat)
    requires n > CHUNK_LEN
    ensures var k := LeftChunks(n);
            ChunkCount(k * CHUNK_LEN) == k && ChunkCount(n - k * CHUNK_LEN) == ChunkCount(n) - k && IsPow2(k)
  {
    assert LeftChunks(n) == Pow2(Log2(CeilDiv(n, CHUNK_LEN) - 1));
  }

  lemma {:induction false} BuiltIsBalanced(input: seq<byte>, base: nat)
    ensures LeftBalanced(Built(input, base)) && |Leaves(Built(input, base))| == ChunkCount(|input|)
    decreases |input|
  {
    LeavesAreChunks(input, base);
    if |input| > CHUNK_LEN {
      var k := LeftChunks(|input|);
      BuiltIsBalanced(input[..k * CHUNK_LEN], base);
      BuiltIsBalanced(input[k * CHUNK_LEN..], base + k);
      SplitCounts(|input|);
    }
  }

  // ---------------------------------------------------------------- uniqueness

  lemma {:induction false} Pow2Order(a: nat, b: nat)
    requires a < b
    ensures 2 * Pow2(a) <= Pow2(b)
    decreases b
  {
    if a < b - 1 { Pow2Order(a, b - 1); }
  }

  // Only one power of two lies below `n` and at or above half of it.
  lemma OneSplit(x: nat, y: nat, n: nat)
    requires IsPow2(x) && IsPow2(y) && x < n <= 2 * x && y < n <= 2 * y
    ensures x == y
  {
    var a: nat, b: nat :| x == Pow2(a) && y == Pow2(b);
    if a < b { Pow2Order(a, b); } else if b < a { Pow2Order(b, a); }
  }

  lemma ConcatUnique(a: seq<Leaf>, b: seq<Leaf>, c: seq<Leaf>, d: seq<Leaf>)
    requires a + b == c + d && |a| == |c|
    ensures a == c && b == d
  {
    assert a == (a + b)[..|a|] && b == (a + b)[|a|..];
    assert c == (c + d)[..|c|] && d == (c + d)[|c|..];
  }

  /** The leaves determine a left-balanced tree. */
  lemma {:induction false} BalancedUnique(s: Tree, t: Tree)
    requires LeftBalanced(s) && LeftBalanced(t) && Leaves(s) == Leaves(t)
    ensures s == t
    decreases s
  {
    if s.Fork? && t.Fork? {
      OneSplit(|Leaves(s.left)|, |Leaves(t.left)|, |Leaves(s)|);
      ConcatUnique(Leaves(s.left), Leaves(s.right), Leaves(t.left), Leaves(t.right));
      BalancedUnique(s.left, t.left);
      BalancedUnique(s.right, t.right);
    } else {
      assert s.Fork? ==> |Leaves(s)| >= 2;
      assert t.Fork? ==> |Leaves(t)| >= 2;
    }
  }

  /**
   * The hash of a message is the hash of the one left-balanced tree over its
   * chunks, chaining value and compressions alike.
   */
  lemma HashIsTreeHash(p: Primitive, input: seq<byte>, t: Tree)
    requires LeftBalanced(t) && Leaves(t) == Chunks(input, 0)
    ensures Hash(p, input) == TreeHash(p, t, true)
  {
    LeavesAreChunks(input, 0);
    BuiltIsBalanced(input, 0);
    BalancedUnique(t, Built(input, 0));
    if |input| > CHUNK_LEN {
      var k := LeftChunks(|input|);
      SubtreeIsTree(p, input[..k * CHUNK_LEN], 0);
      SubtreeIsTree(p, input[k * CHUNK_LEN..], k);
    }
  }

  /** There is such a tree for every message. */
  lemma TreeExists(input: seq<byte>) returns (t: Tree)
    ensures LeftBalanced(t) && Leaves(t) == Chunks(input, 0)
  {
    t := Built(input, 0);
    LeavesAreChunks(input, 0);
    BuiltIsBalanced(input, 0);
  }

  // ---------------------------------------------------------------- the root flag

  // No call but perhaps the last is a root call.
  predicate RootOnlyLast(calls: seq<Call>, root: bool) {
    && calls != []
    && (forall i :: 0 <= i < |calls| - 1 ==> !IsRoot(calls[i]))
    && (IsRoot(calls[|calls| - 1]) <==> root)
  }

  lemma {:induction false} ChunkRoots(p: Primitive, input: seq<byte>, counter: nat, root: bool, b: nat, t: Traced)
    requires b < BlockCount(|input|) && |t.calls| == b && forall i :: 0 <= i < b ==> !IsRoot(t.calls[i])
    ensures RootOnlyLast(ChunkFrom(p, input, counter, root, b, t).calls, root)
    ensures |ChunkFrom(p, input, counter, root, b, t).calls| == BlockCount(|input|)
    decreases BlockCount(|input|) - b
  {
    var next := Compressed(p, t, BlockCall(input, counter, root, b));
    if b + 1 < BlockCount(|input|) {
      ChunkRoots(p, input, counter, root, b + 1, next);
    }
  }

  lemma {:induction false} TreeRoots(p: Primitive, t: Tree, root: bool)
    ensures RootOnlyLast(TreeHash(p, t, root).calls, root)
  {
    match t
    case Tip(leaf) => ChunkRoots(p, leaf.bytes, leaf.counter, root, 0, Traced(p.iv, []));
    case Fork(left, right) =>
      TreeRoots(p, left, false);
      TreeRoots(p, right, false);
      var a, b := TreeHash(p, left, false).calls, TreeHash(p, right, false).calls;
      assert forall i :: 0 <= i < |a| ==> !IsRoot(a[i]);
      assert forall i :: 0 <= i < |b| ==> !IsRoot(b[i]);
  }

  /** Exactly one compression carries ROOT, and it is the last one. */
  lemma OneRoot(p: Primitive, input: seq<byte>, i: nat)
    requires i < |Hash(p, input).calls|
    ensures IsRoot(Hash(p, input).calls[i]) <==> i == |Hash(p, input).calls| - 1
  {
    var t := TreeExists(input);
    HashIsTreeHash(p, input, t);
    TreeRoots(p, t, true);
  }
}
