/** LZSS with a 4 KiB window and matches of 3 to 18 bytes: token language, codec and search. */
module Lzss {
  import opened Bytes
  import opened BitStrings

  const WINDOW_SIZE := 4096
  const MIN_MATCH := 3
  const MAX_MATCH := 18

  datatype Error = Truncated | InvalidReference(at: nat) | OutputOverrun

  datatype Result = Ok(out: seq<byte>) | Err(error: Error)

  // ---------------------------------------------------------------- what a token list means

  datatype Token = Literal(b: byte) | Reference(offset: nat, length: nat)

  /** Byte-by-byte copy from `offset` back, so a copy may run into its own output. */
  function Copy(out: seq<byte>, offset: nat, length: nat): (r: seq<byte>)
    requires 1 <= offset <= |out|
    ensures |r| == |out| + length && out <= r
    decreases length
  {
    if length == 0 then out else Copy(out + [out[|out| - offset]], offset, length - 1)
  }

  predicate WellSized(t: Token) {
    t.Reference? ==> t.offset < WINDOW_SIZE && MIN_MATCH <= t.length <= MAX_MATCH
  }

  predicate Fits(out: seq<byte>, t: Token) {
    WellSized(t) && (t.Reference? ==> 1 <= t.offset <= |out|)
  }

  function Emit(out: seq<byte>, t: Token): (r: seq<byte>)
    requires Fits(out, t)
    ensures out < r
  {
    match t
    case Literal(b) => out + [b]
    case Reference(offset, length) => Copy(out, offset, length)
  }

  predicate AllFit(out: seq<byte>, tokens: seq<Token>)
    decreases |tokens|
  {
    tokens == [] || (Fits(out, tokens[0]) && AllFit(Emit(out, tokens[0]), tokens[1..]))
  }

  function Expand(out: seq<byte>, tokens: seq<Token>): (r: seq<byte>)
    requires AllFit(out, tokens)
    ensures out <= r && |out| + |tokens| <= |r|
    decreases |tokens|
  {
    if tokens == [] then out else Expand(Emit(out, tokens[0]), tokens[1..])
  }

  lemma {:induction false} ExpandAppend(out: seq<byte>, tokens: seq<Token>, t: Token)
    requires AllFit(out, tokens) && Fits(Expand(out, tokens), t)
    ensures AllFit(out, tokens + [t])
    ensures Expand(out, tokens + [t]) == Emit(Expand(out, tokens), t)
    decreases |tokens|
  {
    if tokens == [] {
      assert tokens + [t] == [t];
      assert [t][1..] == [];
    } else {
      assert (tokens + [t])[1..] == tokens[1..] + [t];
      ExpandAppend(Emit(out, tokens[0]), tokens[1..], t);
    }
  }

  lemma {:induction false} ExpandConcat(out: seq<byte>, a: seq<Token>, b: seq<Token>)
    requires AllFit(out, a + b)
    ensures AllFit(out, a) && AllFit(Expand(out, a), b)
    ensures Expand(out, a + b) == Expand(Expand(out, a), b)
    decreases |a|
  {
    if a == [] {
      assert a + b == b;
    } else {
      assert (a + b)[1..] == a[1..] + b;
      ExpandConcat(Emit(out, a[0]), a[1..], b);
    }
  }

  // ---------------------------------------------------------------- how a token list is written

  function TokenBytes(t: Token): (s: seq<byte>)
    requires WellSized(t)
    ensures |s| == if t.Literal? then 1 else 2
  {
    match t
    case Literal(b) => [b]
    case Reference(offset, length) => LE(offset * 16 + (length - MIN_MATCH), 2)
  }

  predicate Encodable(tokens: seq<Token>) {
    forall i :: 0 <= i < |tokens| ==> WellSized(tokens[i])
  }

  function Payload(tokens: seq<Token>): seq<byte>
    requires Encodable(tokens)
  {
    if tokens == [] then [] else TokenBytes(tokens[0]) + Payload(tokens[1..])
  }

  /** One flag per token, literals set, unused high flags clear. */
  function Flags(tokens: seq<Token>, width: nat): (s: seq<bool>)
    ensures |s| == width && forall i :: 0 <= i < width ==> s[i] == (i < |tokens| && tokens[i].Literal?)
  {
    if width == 0 then []
    else if tokens == [] then [false] + Flags([], width - 1)
    else [tokens[0].Literal?] + Flags(tokens[1..], width - 1)
  }

  function FlagByte(tokens: seq<Token>): (b: byte)
    ensures ToBits(b, 8) == Flags(tokens, 8)
  {
    BitsOfNat(Flags(tokens, 8));
    EightBits();
    Nat(Flags(tokens, 8))
  }

  function Frame(tokens: seq<Token>): seq<byte>
    requires |tokens| <= 8 && Encodable(tokens)
  {
    [FlagByte(tokens)] + Payload(tokens)
  }

  function Frames(tokens: seq<Token>): seq<byte>
    requires Encodable(tokens)
  {
    if tokens == [] then []
    else if |tokens| <= 8 then Frame(tokens)
    else Frame(tokens[..8]) + Frames(tokens[8..])
  }

  lemma EightBits()
    ensures Pow2(8) == 256
  {
    assert Pow2(3) == 8;
    assert Pow2(6) == 64;
  }

  lemma {:induction false} AllFitEncodable(out: seq<byte>, tokens: seq<Token>)
    requires AllFit(out, tokens)
    ensures Encodable(tokens)
    decreases |tokens|
  {
    if tokens != [] {
      AllFitEncodable(Emit(out, tokens[0]), tokens[1..]);
      assert tokens == [tokens[0]] + tokens[1..];
    }
  }

  lemma {:induction false} PayloadAppend(tokens: seq<Token>, t: Token)
    requires Encodable(tokens) && WellSized(t)
    ensures Encodable(tokens + [t])
    ensures Payload(tokens + [t]) == Payload(tokens) + TokenBytes(t)
  {
    if tokens == [] {
      assert tokens + [t] == [t];
      assert Payload([t][1..]) == [];
    } else {
      assert (tokens + [t])[1..] == tokens[1..] + [t];
      PayloadAppend(tokens[1..], t);
    }
  }

  lemma {:induction false} FramesAppend(done: seq<Token>, last: seq<Token>)
    requires Encodable(done + last) && |done| % 8 == 0 && 0 < |last| <= 8
    ensures Encodable(done) && Encodable(last)
    ensures Frames(done + last) == Frames(done) + Frame(last)
    decreases |done|
  {
    BothEncodable(done, last);
    if done == [] {
      assert done + last == last;
    } else {
      var rest := done[8..];
      assert (done + last)[..8] == done[..8];
      assert (done + last)[8..] == rest + last;
      FramesAppend(rest, last);
      FramesFront(done, done[..8], rest);
      JoinThree(Frame(done[..8]), Frames(rest), Frame(last));
    }
  }

  lemma BothEncodable(a: seq<Token>, b: seq<Token>)
    requires Encodable(a + b)
    ensures Encodable(a) && Encodable(b)
  {
    assert forall i :: 0 <= i < |a| ==> (a + b)[i] == a[i];
    assert forall i :: 0 <= i < |b| ==> (a + b)[|a| + i] == b[i];
  }

  // A full frame at the front, the last one included.
  lemma FramesFront(tokens: seq<Token>, front: seq<Token>, rest: seq<Token>)
    requires Encodable(tokens) && |tokens| >= 8 && front == tokens[..8] && rest == tokens[8..]
    ensures Frames(tokens) == Frame(front) + Frames(rest)
  {
    if |tokens| == 8 {
      assert front == tokens && rest == [];
    }
  }

  lemma JoinThree(a: seq<byte>, b: seq<byte>, c: seq<byte>)
    ensures a + (b + c) == (a + b) + c
  {}

  // ---------------------------------------------------------------- the decoder

  /** The decoder's place: read position, flags not yet used, output so far. */
  datatype Cursor = Cursor(p: nat, flags: seq<bool>, out: seq<byte>)

  datatype Move = Halt(result: Result) | Go(next: Cursor)

  predicate InBounds(input: seq<byte>, c: Cursor) {
    c.p <= |input|
  }

  function Step(input: seq<byte>, c: Cursor, n: nat): (m: Move)
    requires InBounds(input, c)
    ensures m.Go? ==> InBounds(input, m.next)
    ensures m.Go? ==> |input| - m.next.p < |input| - c.p
  {
    if |c.out| >= n then Halt(Ok(c.out))
    else if c.p >= |input| then Halt(Err(Truncated))
    else if c.flags == [] then Go(Cursor(c.p + 1, ToBits(input[c.p], 8), c.out))
    else if c.flags[0] then Go(Cursor(c.p + 1, c.flags[1..], c.out + [input[c.p]]))
    else if c.p + 2 > |input| then Halt(Err(Truncated))
    else
      var packed := FromLE(input[c.p..c.p + 2]);
      var offset, length := packed / 16, packed % 16 + MIN_MATCH;
      if offset == 0 || offset > |c.out| then Halt(Err(InvalidReference(c.p)))
      else if |c.out| + length > n then Halt(Err(OutputOverrun))
      else Go(Cursor(c.p + 2, c.flags[1..], Copy(c.out, offset, length)))
  }

  function Decode(input: seq<byte>, c: Cursor, n: nat): Result
    requires InBounds(input, c)
    decreases |input| - c.p
  {
    match Step(input, c, n)
    case Halt(r) => r
    case Go(next) => Decode(input, next, n)
  }

  function DecodeAll(input: seq<byte>): Result {
    if |input| < 4 then Err(Truncated) else Decode(input, Cursor(4, [], []), FromLE(input[..4]))
  }

  lemma StepToken(input: seq<byte>, c: Cursor, n: nat) returns (t: Token)
    requires InBounds(input, c) && c.flags != [] && Step(input, c, n).Go?
    ensures Fits(c.out, t) && Step(input, c, n).next.out == Emit(c.out, t)
    ensures |Emit(c.out, t)| <= n
  {
    if c.flags[0] {
      t := Literal(input[c.p]);
    } else {
      var packed := FromLE(input[c.p..c.p + 2]);
      FromLEBound(input[c.p..c.p + 2]);
      FieldWidths();
      t := Reference(packed / 16, packed % 16 + MIN_MATCH);
    }
  }

  /** Whatever bytes come in, a decoded output has exactly the declared length and is an expansion. */
  lemma {:induction false} DecodeSound(input: seq<byte>, c: Cursor, n: nat) returns (tokens: seq<Token>)
    requires InBounds(input, c) && |c.out| <= n
    requires Decode(input, c, n).Ok?
    ensures |Decode(input, c, n).out| == n
    ensures AllFit(c.out, tokens) && Decode(input, c, n).out == Expand(c.out, tokens)
    decreases |input| - c.p
  {
    match Step(input, c, n)
    case Halt(_) =>
      tokens := [];
    case Go(next) =>
      if c.flags == [] {
        tokens := DecodeSound(input, next, n);
      } else {
        var t := StepToken(input, c, n);
        var more := DecodeSound(input, next, n);
        tokens := [t] + more;
        assert tokens[1..] == more;
      }
  }

  lemma DecodeAllSound(input: seq<byte>) returns (tokens: seq<Token>)
    requires DecodeAll(input).Ok?
    ensures |DecodeAll(input).out| == FromLE(input[..4])
    ensures AllFit([], tokens) && DecodeAll(input).out == Expand([], tokens)
  {
    tokens := DecodeSound(input, Cursor(4, [], []), FromLE(input[..4]));
  }

  // ---------------------------------------------------------------- decoding what was written

  lemma Unpack(offset: nat, length: nat)
    requires WellSized(Reference(offset, length))
    ensures var packed := FromLE(TokenBytes(Reference(offset, length)));
      packed / 16 == offset && packed % 16 + MIN_MATCH == length
  {
    FieldWidths();
    LERoundTrip(offset * 16 + (length - MIN_MATCH), 2);
  }

  function After(c: Cursor, t: Token): Cursor
    requires Fits(c.out, t) && c.flags != []
  {
    Cursor(c.p + |TokenBytes(t)|, c.flags[1..], Emit(c.out, t))
  }

  lemma StepReference(input: seq<byte>, c: Cursor, n: nat, offset: nat, length: nat)
    requires c.p + 2 <= |input| && c.flags != [] && !c.flags[0]
    requires 1 <= offset <= |c.out| && |Copy(c.out, offset, length)| <= n && length > 0
    requires FromLE(input[c.p..c.p + 2]) / 16 == offset && FromLE(input[c.p..c.p + 2]) % 16 + MIN_MATCH == length
    ensures Step(input, c, n) == Go(Cursor(c.p + 2, c.flags[1..], Copy(c.out, offset, length)))
  {
  }

  lemma StepOne(input: seq<byte>, c: Cursor, n: nat, t: Token)
    requires Fits(c.out, t) && |Emit(c.out, t)| <= n
    requires c.flags != [] && c.flags[0] == t.Literal?
    requires c.p + |TokenBytes(t)| <= |input| && input[c.p..c.p + |TokenBytes(t)|] == TokenBytes(t)
    ensures Step(input, c, n) == Go(After(c, t))
  {
    if t.Literal? {
      assert input[c.p] == input[c.p..c.p + 1][0];
    } else {
      Unpack(t.offset, t.length);
      StepReference(input, c, n, t.offset, t.length);
    }
  }

  lemma Peel(input: seq<byte>, p: nat, head: seq<byte>, tail: seq<byte>)
    requires p <= |input| && input[p..] == head + tail
    ensures p + |head| <= |input| && input[p..p + |head|] == head && input[p + |head|..] == tail
  {
    assert input[p..p + |head|] == input[p..][..|head|];
    assert input[p + |head|..] == input[p..][|head|..];
  }

  lemma PeelTwo(input: seq<byte>, p: nat, head: seq<byte>, mid: seq<byte>, rest: seq<byte>)
    requires p <= |input| && input[p..] == (head + mid) + rest
    ensures p + |head| <= |input| && input[p..p + |head|] == head && input[p + |head|..] == mid + rest
  {
    assert (head + mid) + rest == head + (mid + rest);
    Peel(input, p, head, mid + rest);
  }

  lemma PayloadHead(input: seq<byte>, p: nat, tokens: seq<Token>, rest: seq<byte>)
    requires tokens != [] && Encodable(tokens)
    requires p <= |input| && input[p..] == Payload(tokens) + rest
    ensures var k := |TokenBytes(tokens[0])|;
      && p + k <= |input|
      && input[p..p + k] == TokenBytes(tokens[0])
      && input[p + k..] == Payload(tokens[1..]) + rest
      && |Payload(tokens)| == k + |Payload(tokens[1..])|
  {
    PeelTwo(input, p, TokenBytes(tokens[0]), Payload(tokens[1..]), rest);
  }

  function AfterAll(c: Cursor, tokens: seq<Token>): Cursor
    requires AllFit(c.out, tokens) && Encodable(tokens) && |tokens| <= |c.flags|
  {
    Cursor(c.p + |Payload(tokens)|, c.flags[|tokens|..], Expand(c.out, tokens))
  }

  // One token of the payload: the cursor moves over it.
  lemma TokenStep(input: seq<byte>, c: Cursor, n: nat, tokens: seq<Token>, rest: seq<byte>) returns (next: Cursor)
    requires tokens != [] && AllFit(c.out, tokens) && Encodable(tokens) && |Expand(c.out, tokens)| <= n
    requires c.flags != [] && c.flags[0] == tokens[0].Literal?
    requires InBounds(input, c) && input[c.p..] == Payload(tokens) + rest
    ensures next == After(c, tokens[0]) && InBounds(input, next)
    ensures input[next.p..] == Payload(tokens[1..]) + rest
    ensures Decode(input, c, n) == Decode(input, next, n)
  {
    next := After(c, tokens[0]);
    PayloadHead(input, c.p, tokens, rest);
    StepOne(input, c, n, tokens[0]);
  }

  lemma AfterStep(c: Cursor, tokens: seq<Token>)
    requires tokens != [] && AllFit(c.out, tokens) && Encodable(tokens) && |tokens| <= |c.flags|
    ensures AfterAll(After(c, tokens[0]), tokens[1..]) == AfterAll(c, tokens)
  {
    DropMore(c.flags, |tokens|);
    assert Expand(After(c, tokens[0]).out, tokens[1..]) == Expand(c.out, tokens);
    assert |Payload(tokens)| == |TokenBytes(tokens[0])| + |Payload(tokens[1..])|;
  }

  lemma DropMore(flags: seq<bool>, n: nat)
    requires 0 < n <= |flags|
    ensures flags[1..][n - 1..] == flags[n..]
  {}

  lemma {:induction false} DecodeTokens(input: seq<byte>, c: Cursor, n: nat, tokens: seq<Token>, rest: seq<byte>)
    requires AllFit(c.out, tokens) && Encodable(tokens) && |Expand(c.out, tokens)| <= n
    requires |tokens| <= |c.flags| && forall i :: 0 <= i < |tokens| ==> c.flags[i] == tokens[i].Literal?
    requires InBounds(input, c) && input[c.p..] == Payload(tokens) + rest
    ensures InBounds(input, AfterAll(c, tokens))
    ensures Decode(input, c, n) == Decode(input, AfterAll(c, tokens), n)
    decreases |tokens|
  {
    if tokens == [] {
      assert AfterAll(c, tokens) == c;
    } else {
      var next := TokenStep(input, c, n, tokens, rest);
      AfterStep(c, tokens);
      DecodeTokens(input, next, n, tokens[1..], rest);
    }
  }

  lemma FrameHead(input: seq<byte>, p: nat, tokens: seq<Token>, rest: seq<byte>)
    requires |tokens| <= 8 && Encodable(tokens)
    requires p <= |input| && input[p..] == Frame(tokens) + rest
    ensures p < |input| && input[p] == FlagByte(tokens) && input[p + 1..] == Payload(tokens) + rest
    ensures |Frame(tokens)| == 1 + |Payload(tokens)|
  {
    assert input[p..] == [FlagByte(tokens)] + (Payload(tokens) + rest);
    Peel(input, p, [FlagByte(tokens)], Payload(tokens) + rest);
    assert input[p] == input[p..p + 1][0];
  }

  function AfterFrame(p: nat, out: seq<byte>, tokens: seq<Token>): Cursor
    requires AllFit(out, tokens) && Encodable(tokens) && |tokens| <= 8
  {
    Cursor(p + |Frame(tokens)|, Flags(tokens, 8)[|tokens|..], Expand(out, tokens))
  }

  lemma DecodeFrame(input: seq<byte>, p: nat, out: seq<byte>, n: nat, tokens: seq<Token>, rest: seq<byte>)
    requires AllFit(out, tokens) && Encodable(tokens) && |Expand(out, tokens)| <= n
    requires 0 < |tokens| <= 8
    requires p <= |input| && input[p..] == Frame(tokens) + rest
    ensures InBounds(input, AfterFrame(p, out, tokens))
    ensures Decode(input, Cursor(p, [], out), n) == Decode(input, AfterFrame(p, out, tokens), n)
  {
    FrameHead(input, p, tokens, rest);
    var c := Cursor(p + 1, Flags(tokens, 8), out);
    assert Step(input, Cursor(p, [], out), n) == Go(c);
    DecodeTokens(input, c, n, tokens, rest);
    assert AfterAll(c, tokens) == AfterFrame(p, out, tokens);
  }

  lemma {:induction false} DecodeFrames(input: seq<byte>, p: nat, out: seq<byte>, n: nat, tokens: seq<Token>)
    requires AllFit(out, tokens) && Encodable(tokens) && |Expand(out, tokens)| == n
    requires p <= |input| && input[p..] == Frames(tokens)
    ensures Decode(input, Cursor(p, [], out), n) == Ok(Expand(out, tokens))
    decreases |tokens|
  {
    if tokens == [] {
    } else if |tokens| <= 8 {
      assert input[p..] == Frame(tokens) + [];
      DecodeFrame(input, p, out, n, tokens, []);
      assert Step(input, AfterFrame(p, out, tokens), n) == Halt(Ok(Expand(out, tokens)));
    } else {
      var first, more := tokens[..8], tokens[8..];
      assert tokens == first + more;
      ExpandConcat(out, first, more);
      DecodeFrame(input, p, out, n, first, Frames(more));
      Peel(input, p, Frame(first), Frames(more));
      var c := AfterFrame(p, out, first);
      assert c == Cursor(p + |Frame(first)|, [], Expand(out, first));
      DecodeFrames(input, c.p, c.out, n, more);
    }
  }

  /** The length field; a length that does not fit a `u32` saturates. */
  function Header(n: nat): seq<byte> {
    LE(if n < U32_LIMIT then n else U32_LIMIT - 1, 4)
  }

  /** Decoding an encoded expansion restores it exactly when its length fits the header. */
  lemma DecodeEncoded(tokens: seq<Token>)
    requires AllFit([], tokens) && Encodable(tokens)
    ensures DecodeAll(Header(|Expand([], tokens)|) + Frames(tokens)) == Ok(Expand([], tokens))
       <==> |Expand([], tokens)| < U32_LIMIT
  {
    var x := Expand([], tokens);
    var stream := Header(|x|) + Frames(tokens);
    assert stream[..4] == Header(|x|) && stream[4..] == Frames(tokens);
    FieldWidths();
    if |x| < U32_LIMIT {
      LERoundTrip(|x|, 4);
      DecodeFrames(stream, 4, [], |x|, tokens);
    } else {
      LERoundTrip(U32_LIMIT - 1, 4);
      if DecodeAll(stream).Ok? {
        var _ := DecodeAllSound(stream);
      }
    }
  }

  // ---------------------------------------------------------------- size

  function Blocks(n: nat): nat {
    (n + 7) / 8
  }

  lemma {:induction false} PayloadSize(out: seq<byte>, tokens: seq<Token>)
    requires AllFit(out, tokens) && Encodable(tokens)
    ensures |Payload(tokens)| <= |Expand(out, tokens)| - |out|
    decreases |tokens|
  {
    if tokens != [] {
      PayloadSize(Emit(out, tokens[0]), tokens[1..]);
    }
  }

  lemma {:induction false} FramesSize(out: seq<byte>, tokens: seq<Token>)
    requires AllFit(out, tokens) && Encodable(tokens)
    ensures |Frames(tokens)| <= |Expand(out, tokens)| - |out| + Blocks(|tokens|)
    decreases |tokens|
  {
    if tokens == [] {
    } else if |tokens| <= 8 {
      PayloadSize(out, tokens);
    } else {
      assert tokens == tokens[..8] + tokens[8..];
      ExpandConcat(out, tokens[..8], tokens[8..]);
      PayloadSize(out, tokens[..8]);
      FramesSize(Expand(out, tokens[..8]), tokens[8..]);
    }
  }
}
