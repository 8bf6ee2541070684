/** The LZSS loops: greedy match search, frame-by-frame compression, bounds-checked decompression. */
module LzssCodec {
  import opened Bytes
  import opened BitStrings
  import opened Lzss

  function Min(a: int, b: int): int {
    if a < b then a else b
  }

  // ---------------------------------------------------------------- longest match

  /** How many bytes agree from `a` and from `b` on, up to `cap`. */
  function Agreement(input: seq<byte>, a: nat, b: nat, cap: nat): (len: nat)
    requires a <= b && b + cap <= |input|
    ensures len <= cap
    decreases cap
  {
    if cap == 0 || input[a] != input[b] then 0 else 1 + Agreement(input, a + 1, b + 1, cap - 1)
  }

  lemma {:induction false} AgreementIs(input: seq<byte>, a: nat, b: nat, cap: nat, len: nat)
    requires a <= b && b + cap <= |input| && len <= cap
    requires input[a..a + len] == input[b..b + len]
    requires len < cap ==> input[a + len] != input[b + len]
    ensures Agreement(input, a, b, cap) == len
    decreases cap
  {
    if len > 0 {
      assert input[a] == input[a..a + len][0] == input[b..b + len][0] == input[b];
      assert input[a + 1..a + len] == input[a..a + len][1..];
      assert input[b + 1..b + len] == input[b..b + len][1..];
      AgreementIs(input, a + 1, b + 1, cap - 1, len - 1);
    }
  }

  function Lookahead(input: seq<byte>, pos: nat): nat
    requires pos <= |input|
  {
    Min(MAX_MATCH, |input| - pos)
  }

  function WindowStart(pos: nat): nat {
    if pos < WINDOW_SIZE - 1 then 0 else pos - (WINDOW_SIZE - 1)
  }

  function MatchAt(input: seq<byte>, probe: nat, pos: nat): nat
    requires probe <= pos <= |input|
  {
    Agreement(input, probe, pos, Lookahead(input, pos))
  }

  /** `(offset, length)` is the longest match the window offers, the farthest one among equals. */
  ghost predicate LongestMatch(input: seq<byte>, pos: nat, offset: nat, length: nat)
    requires pos <= |input|
  {
    if pos == 0 || |input| - pos < MIN_MATCH then offset == 0 && length == 0
    else
      && offset <= pos - WindowStart(pos)
      && (length == 0 <==> offset == 0)
      && (offset > 0 ==> MatchAt(input, pos - offset, pos) == length)
      && (forall probe :: WindowStart(pos) <= probe < pos ==> MatchAt(input, probe, pos) <= length)
      && (offset > 0 ==> forall probe :: WindowStart(pos) <= probe < pos - offset ==> MatchAt(input, probe, pos) < length)
  }

  lemma LongestMatchUnique(input: seq<byte>, pos: nat, o1: nat, l1: nat, o2: nat, l2: nat)
    requires pos <= |input| && LongestMatch(input, pos, o1, l1) && LongestMatch(input, pos, o2, l2)
    ensures o1 == o2 && l1 == l2
  {
    if pos != 0 && |input| - pos >= MIN_MATCH {
      assert o1 > 0 ==> MatchAt(input, pos - o1, pos) <= l2;
      assert o2 > 0 ==> MatchAt(input, pos - o2, pos) <= l1;
      assert 0 < o1 < o2 ==> WindowStart(pos) <= pos - o2 < pos - o1;
      assert 0 < o2 < o1 ==> WindowStart(pos) <= pos - o1 < pos - o2;
    }
  }

  method MatchLength(input: seq<byte>, probe: nat, pos: nat, maxLookahead: nat) returns (len: nat)
    requires probe < pos && pos + maxLookahead <= |input|
    ensures len == Agreement(input, probe, pos, maxLookahead)
  {
    len := 0;
    while len < maxLookahead && input[probe + len] == input[pos + len]
      invariant 0 <= len <= maxLookahead
      invariant input[probe..probe + len] == input[pos..pos + len]
    {
      assert input[probe..probe + len + 1] == input[probe..probe + len] + [input[probe + len]];
      assert input[pos..pos + len + 1] == input[pos..pos + len] + [input[pos + len]];
      len := len + 1;
    }
    AgreementIs(input, probe, pos, maxLookahead, len);
  }

  method FindLongestMatch(input: seq<byte>, pos: nat) returns (bestOff: nat, bestLen: nat)
    requires pos <= |input|
    ensures LongestMatch(input, pos, bestOff, bestLen)
  {
    if pos == 0 || |input| - pos < MIN_MATCH {
      return 0, 0;
    }
    var maxLookahead := Lookahead(input, pos);
    var windowStart := WindowStart(pos);
    bestOff, bestLen := 0, 0;
    var probe := windowStart;
    while probe < pos
      invariant windowStart <= probe <= pos && bestLen < maxLookahead
      invariant Best(input, pos, probe, bestOff, bestLen)
    {
      var len := MatchLength(input, probe, pos, maxLookahead);
      BestNext(input, pos, probe, bestOff, bestLen, len);
      if len > bestLen {
        bestLen := len;
        bestOff := pos - probe;
        if bestLen == maxLookahead {
          BestCapped(input, pos, probe, bestOff, bestLen);
          break;
        }
      }
      probe := probe + 1;
    }
  }

  /** The longest match among the positions before `probe`, the farthest one among equals. */
  ghost predicate Best(input: seq<byte>, pos: nat, probe: nat, offset: nat, length: nat)
    requires pos <= |input| && probe <= pos
  {
    && offset <= pos - WindowStart(pos) && (length == 0 <==> offset == 0)
    && (offset > 0 ==> pos - offset < probe && MatchAt(input, pos - offset, pos) == length)
    && (forall q :: WindowStart(pos) <= q < probe ==> MatchAt(input, q, pos) <= length)
    && (offset > 0 ==> forall q :: WindowStart(pos) <= q < pos - offset ==> MatchAt(input, q, pos) < length)
  }

  lemma BestNext(input: seq<byte>, pos: nat, probe: nat, offset: nat, length: nat, len: nat)
    requires WindowStart(pos) <= probe < pos <= |input| && Best(input, pos, probe, offset, length)
    requires len == MatchAt(input, probe, pos)
    ensures if len > length then Best(input, pos, probe + 1, pos - probe, len) else Best(input, pos, probe + 1, offset, length)
  {
  }

  // Nothing later is longer than the cap.
  lemma BestCapped(input: seq<byte>, pos: nat, probe: nat, offset: nat, length: nat)
    requires probe < pos <= |input| && Best(input, pos, probe + 1, offset, length) && length == Lookahead(input, pos)
    ensures Best(input, pos, pos, offset, length)
  {
  }

  // ---------------------------------------------------------------- copying a match

  lemma {:induction false} AgreementBytes(input: seq<byte>, a: nat, b: nat, cap: nat, j: nat)
    requires a <= b && b + cap <= |input| && j < Agreement(input, a, b, cap)
    ensures input[a + j] == input[b + j]
    decreases cap
  {
    if j > 0 {
      AgreementBytes(input, a + 1, b + 1, cap - 1, j - 1);
    }
  }

  lemma {:induction false} CopyOfMatch(input: seq<byte>, pos: nat, offset: nat, length: nat)
    requires 1 <= offset <= pos && pos + length <= |input|
    requires forall j :: pos <= j < pos + length ==> input[j - offset] == input[j]
    ensures Copy(input[..pos], offset, length) == input[..pos + length]
    decreases length
  {
    if length > 0 {
      assert input[pos - offset] == input[pos];
      assert input[..pos] + [input[pos]] == input[..pos + 1];
      CopyOfMatch(input, pos + 1, offset, length - 1);
    }
  }

  lemma MatchCopies(input: seq<byte>, pos: nat, offset: nat, length: nat)
    requires pos < |input| && LongestMatch(input, pos, offset, length) && length >= MIN_MATCH
    ensures pos + length <= |input| && Fits(input[..pos], Reference(offset, length))
    ensures Emit(input[..pos], Reference(offset, length)) == input[..pos + length]
  {
    forall j | pos <= j < pos + length ensures input[j - offset] == input[j] {
      AgreementBytes(input, pos - offset, pos, Lookahead(input, pos), j - pos);
    }
    CopyOfMatch(input, pos, offset, length);
  }

  // ---------------------------------------------------------------- compression

  function Width(t: Token): nat {
    if t.Literal? then 1 else t.length
  }

  ghost predicate GreedyToken(input: seq<byte>, pos: nat, t: Token)
    requires pos <= |input|
  {
    match t
    case Literal(b) =>
      pos < |input| && b == input[pos] &&
      forall offset: nat, length: nat :: LongestMatch(input, pos, offset, length) ==> length < MIN_MATCH
    case Reference(offset, length) =>
      LongestMatch(input, pos, offset, length) && length >= MIN_MATCH
  }

  /** `tokens` is the greedy parse of `input[..pos]`. */
  ghost predicate GreedyParse(input: seq<byte>, tokens: seq<Token>, pos: nat)
    requires pos <= |input|
    decreases |tokens|
  {
    if tokens == [] then pos == 0
    else
      var n := |tokens| - 1;
      Width(tokens[n]) <= pos &&
      GreedyToken(input, pos - Width(tokens[n]), tokens[n]) &&
      GreedyParse(input, tokens[..n], pos - Width(tokens[n]))
  }

  lemma GreedyAppend(input: seq<byte>, tokens: seq<Token>, pos: nat, t: Token)
    requires pos + Width(t) <= |input| && GreedyParse(input, tokens, pos) && GreedyToken(input, pos, t)
    ensures GreedyParse(input, tokens + [t], pos + Width(t))
  {
    assert (tokens + [t])[..|tokens|] == tokens;
  }

  /** Adding a token to a frame shorter than eight sets its flag bit and nothing else. */
  lemma {:induction false} FlagAppend(tokens: seq<Token>, t: Token, width: nat)
    requires |tokens| < width
    ensures Nat(Flags(tokens + [t], width)) == Nat(Flags(tokens, width)) + (if t.Literal? then Pow2(|tokens|) else 0)
    decreases width
  {
    if tokens == [] {
      assert tokens + [t] == [t];
      assert [t][1..] == [];
      assert Flags([t], width)[1..] == Flags([], width - 1) == Flags([], width)[1..];
    } else {
      assert (tokens + [t])[1..] == tokens[1..] + [t];
      FlagAppend(tokens[1..], t, width - 1);
      assert Flags(tokens + [t], width)[1..] == Flags(tokens[1..] + [t], width - 1);
      assert Flags(tokens, width)[1..] == Flags(tokens[1..], width - 1);
    }
  }

  lemma {:induction false} NoFlags(width: nat)
    ensures Nat(Flags([], width)) == 0
  {
    if width > 0 {
      NoFlags(width - 1);
      assert Flags([], width)[1..] == Flags([], width - 1);
    }
  }

  lemma Regroup<T>(a: seq<T>, b: seq<T>, c: seq<T>)
    ensures (a + b) + c == a + (b + c)
  {
  }

  lemma Split<T>(s: seq<T>, k: nat)
    requires k <= |s|
    ensures s[..k] + s[k..] == s && s[..|s|] == s && s[|s|..] == []
  {
  }

  lemma SplitSnoc<T>(s: seq<T>, k: nat, t: T)
    requires k <= |s|
    ensures (s + [t])[..k] == s[..k] && (s + [t])[k..] == s[k..] + [t]
  {
  }

  lemma GreedyEmits(input: seq<byte>, pos: nat, t: Token)
    requires pos <= |input| && GreedyToken(input, pos, t)
    ensures pos + Width(t) <= |input| && WellSized(t)
    ensures Fits(input[..pos], t) && Emit(input[..pos], t) == input[..pos + Width(t)]
  {
    match t
    case Literal(b) =>
      assert input[..pos] + [b] == input[..pos + 1];
    case Reference(offset, length) =>
      assert pos < |input|;
      MatchCopies(input, pos, offset, length);
  }

  /** A greedy parse expands back to what it parses. */
  lemma {:induction false} GreedyExpands(input: seq<byte>, tokens: seq<Token>, pos: nat)
    requires pos <= |input| && GreedyParse(input, tokens, pos)
    ensures AllFit([], tokens) && Expand([], tokens) == input[..pos]
    decreases |tokens|
  {
    if tokens != [] {
      var n := |tokens| - 1;
      var start := pos - Width(tokens[n]);
      GreedyExpands(input, tokens[..n], start);
      assert tokens[..n] + [tokens[n]] == tokens;
      ExpandsOn(input, tokens[..n], start, tokens[n]);
    }
  }

  lemma ExpandsOn(input: seq<byte>, front: seq<Token>, start: nat, t: Token)
    requires start <= |input| && AllFit([], front) && Expand([], front) == input[..start] && GreedyToken(input, start, t)
    ensures start + Width(t) <= |input|
    ensures AllFit([], front + [t]) && Expand([], front + [t]) == input[..start + Width(t)]
  {
    GreedyEmits(input, start, t);
    ExpandAppend([], front, t);
  }

  /** The stream of the closed frames `done` followed by the open frame `cur`. */
  ghost predicate Written(out: seq<byte>, n: nat, done: seq<Token>) {
    |done| % 8 == 0 && Encodable(done) && out == Header(n) + Frames(done)
  }

  lemma PlusEight(n: nat)
    requires n % 8 == 0
    ensures (n + 8) % 8 == 0
  {
  }

  lemma WrittenFlush(out: seq<byte>, n: nat, done: seq<Token>, cur: seq<Token>)
    requires Written(out, n, done) && Encodable(cur) && 0 < |cur| <= 8
    ensures Encodable(done + cur)
    ensures out + [FlagByte(cur)] + Payload(cur) == Header(n) + Frames(done + cur)
    ensures |cur| == 8 ==> Written(out + [FlagByte(cur)] + Payload(cur), n, done + cur)
  {
    assert forall i :: 0 <= i < |done + cur| ==> WellSized((done + cur)[i]);
    FramesAppend(done, cur);
    Regroup(out, [FlagByte(cur)], Payload(cur));
    Regroup(Header(n), Frames(done), Frame(cur));
    if |cur| == 8 {
      PlusEight(|done|);
    }
  }

  lemma GreedyStream(input: seq<byte>, tokens: seq<Token>, out: seq<byte>)
    requires GreedyParse(input, tokens, |input|) && Encodable(tokens)
    requires out == Header(|input|) + Frames(tokens)
    ensures DecodeAll(out) == Ok(input) <==> |input| < U32_LIMIT
    ensures |out| <= 4 + |input| + Blocks(|input|)
  {
    GreedyExpands(input, tokens, |input|);
    assert input[..|input|] == input;
    DecodeEncoded(tokens);
    FramesSize([], tokens);
  }

  lemma LiteralChosen(input: seq<byte>, pos: nat, off: nat, len: nat)
    requires pos < |input| && LongestMatch(input, pos, off, len) && len < MIN_MATCH
    ensures GreedyToken(input, pos, Literal(input[pos]))
  {
    forall o: nat, l: nat | LongestMatch(input, pos, o, l) ensures l < MIN_MATCH {
      LongestMatchUnique(input, pos, o, l, off, len);
    }
  }

  /** The token the encoder chooses at `pos`: the longest match if it is worth it, else one byte. */
  method ChooseToken(input: seq<byte>, pos: nat, ghost tokens: seq<Token>) returns (t: Token)
    requires pos < |input| && GreedyParse(input, tokens, pos)
    ensures WellSized(t) && pos + Width(t) <= |input| && GreedyParse(input, tokens + [t], pos + Width(t))
    ensures Width(t) > 0
  {
    var matchOff, matchLen := FindLongestMatch(input, pos);
    if matchLen >= MIN_MATCH {
      t := Reference(matchOff, matchLen);
    } else {
      LiteralChosen(input, pos, matchOff, matchLen);
      t := Literal(input[pos]);
    }
    GreedyEmits(input, pos, t);
    GreedyAppend(input, tokens, pos, t);
  }

  /** The encoder's buffers: closed frames in `out`, the open frame's flags and bytes beside it. */
  datatype Buffers = Buffers(out: seq<byte>, flagByte: byte, frame: seq<byte>, tokensInFrame: nat)

  ghost predicate Hold(s: Buffers, n: nat, done: seq<Token>, cur: seq<Token>) {
    && Written(s.out, n, done)
    && Encodable(cur) && s.tokensInFrame == |cur| < 8
    && s.flagByte == FlagByte(cur) && s.frame == Payload(cur)
  }

  ghost predicate Holds(s: Buffers, n: nat, tokens: seq<Token>) {
    exists k :: 0 <= k <= |tokens| && Hold(s, n, tokens[..k], tokens[k..])
  }

  lemma HoldSnoc(s: Buffers, n: nat, tokens: seq<Token>, k: nat, t: Token, s': Buffers)
    requires WellSized(t) && k <= |tokens| && Hold(s, n, tokens[..k], tokens[k..]) && s.tokensInFrame < 7
    requires s'.out == s.out && s'.tokensInFrame == s.tokensInFrame + 1
    requires s'.flagByte == FlagByte(tokens[k..] + [t]) && s'.frame == Payload(tokens[k..]) + TokenBytes(t)
    ensures Holds(s', n, tokens + [t])
  {
    SplitSnoc(tokens, k, t);
    PayloadAppend(tokens[k..], t);
    assert Hold(s', n, (tokens + [t])[..k], (tokens + [t])[k..]);
  }

  lemma HoldFlush(s: Buffers, n: nat, tokens: seq<Token>, k: nat, t: Token, s': Buffers)
    requires WellSized(t) && k <= |tokens| && Hold(s, n, tokens[..k], tokens[k..]) && s.tokensInFrame == 7
    requires s'.out == s.out + [FlagByte(tokens[k..] + [t])] + (Payload(tokens[k..]) + TokenBytes(t))
    requires s'.flagByte == 0 && s'.frame == [] && s'.tokensInFrame == 0
    ensures Holds(s', n, tokens + [t])
  {
    PayloadAppend(tokens[k..], t);
    WrittenFlush(s.out, n, tokens[..k], tokens[k..] + [t]);
    var all := tokens + [t];
    Regroup(tokens[..k], tokens[k..], [t]);
    Split(tokens, k);
    Split(all, |all|);
    NoFlags(8);
    assert Hold(s', n, all[..|all|], all[|all|..]);
  }

  lemma FlagByteSnoc(cur: seq<Token>, t: Token)
    requires |cur| < 8
    ensures FlagByte(cur + [t]) == FlagByte(cur) + (if t.Literal? then Pow2(|cur|) else 0)
  {
    FlagAppend(cur, t, 8);
  }

  /** Adds the token's flag bit, still clear, and its bytes to the open frame; closes a full frame. */
  method PushToken(s: Buffers, t: Token, ghost n: nat, ghost tokens: seq<Token>) returns (s': Buffers)
    requires WellSized(t) && Holds(s, n, tokens)
    ensures Holds(s', n, tokens + [t])
  {
    ghost var k :| 0 <= k <= |tokens| && Hold(s, n, tokens[..k], tokens[k..]);
    FlagByteSnoc(tokens[k..], t);
    var flagByte: byte := if t.Literal? then s.flagByte + Pow2(s.tokensInFrame) else s.flagByte;
    var bytes: seq<byte> := if t.Literal? then [t.b] else LE(t.offset * 16 + (t.length - MIN_MATCH), 2);
    assert flagByte == FlagByte(tokens[k..] + [t]) && bytes == TokenBytes(t);
    if s.tokensInFrame + 1 == 8 {
      s' := Buffers(s.out + [flagByte] + (s.frame + bytes), 0, [], 0);
      HoldFlush(s, n, tokens, k, t, s');
    } else {
      s' := Buffers(s.out, flagByte, s.frame + bytes, s.tokensInFrame + 1);
      HoldSnoc(s, n, tokens, k, t, s');
    }
  }

  /** Flushes a partial last frame. */
  method Finish(s: Buffers, ghost n: nat, ghost tokens: seq<Token>) returns (out: seq<byte>)
    requires Holds(s, n, tokens)
    ensures Encodable(tokens) && out == Header(n) + Frames(tokens)
  {
    ghost var k :| 0 <= k <= |tokens| && Hold(s, n, tokens[..k], tokens[k..]);
    Split(tokens, k);
    out := s.out;
    if s.tokensInFrame > 0 {
      WrittenFlush(s.out, n, tokens[..k], tokens[k..]);
      out := out + [s.flagByte] + s.frame;
    }
  }

  lemma HoldStart(s: Buffers, n: nat)
    requires s.out == Header(n) && s.flagByte == 0 && s.frame == [] && s.tokensInFrame == 0
    ensures Holds(s, n, [])
  {
    NoFlags(8);
    var none: seq<Token> := [];
    assert s.out + [] == s.out;
    assert Hold(s, n, none[..0], none[0..]);
  }

  method EncodeOne(input: seq<byte>, i: nat, s: Buffers, ghost tokens: seq<Token>)
    returns (i': nat, s': Buffers, ghost tokens': seq<Token>)
    requires i < |input| && GreedyParse(input, tokens, i) && Holds(s, |input|, tokens)
    ensures i < i' <= |input| && GreedyParse(input, tokens', i') && Holds(s', |input|, tokens')
  {
    var t := ChooseToken(input, i, tokens);
    tokens', i' := tokens + [t], i + Width(t);
    assert GreedyParse(input, tokens', i');
    s' := PushToken(s, t, |input|, tokens);
  }

  method EncodeGreedily(input: seq<byte>) returns (out: seq<byte>, ghost tokens: seq<Token>)
    ensures GreedyParse(input, tokens, |input|) && Encodable(tokens)
    ensures out == Header(|input|) + Frames(tokens)
  {
    tokens := [];
    var s := Buffers(Header(|input|), 0, [], 0);
    HoldStart(s, |input|);
    var i := 0;
    while i < |input|
      invariant i <= |input| && GreedyParse(input, tokens, i)
      invariant Holds(s, |input|, tokens)
    {
      i, s, tokens := EncodeOne(input, i, s, tokens);
    }
    out := Finish(s, |input|, tokens);
  }

  /**
   * Every input shorter than 2^32 bytes decodes back to itself, and only those: a longer one has a
   * saturated length header.
   */
  method Compress(input: seq<byte>) returns (out: seq<byte>)
    ensures DecodeAll(out) == Ok(input) <==> |input| < U32_LIMIT
    ensures |out| <= 4 + |input| + Blocks(|input|)
    ensures exists tokens :: GreedyParse(input, tokens, |input|) && Encodable(tokens) && out == Header(|input|) + Frames(tokens)
  {
    ghost var tokens;
    out, tokens := EncodeGreedily(input);
    GreedyStream(input, tokens, out);
  }

  // ---------------------------------------------------------------- decompression

  /** Copies `length` bytes one at a time, so the source may run into what is being written. */
  method CopyBytes(out: seq<byte>, offset: nat, length: nat, origLen: nat) returns (ok: bool, out': seq<byte>)
    requires 1 <= offset <= |out| <= origLen
    ensures ok <==> |out| + length <= origLen
    ensures ok ==> out' == Copy(out, offset, length)
  {
    var start := |out| - offset;
    out' := out;
    var j := 0;
    while j < length
      invariant 0 <= j <= length && |out'| == |out| + j && |out'| - offset == start + j
      invariant j > 0 ==> |out'| <= origLen
      invariant Copy(out', offset, length - j) == Copy(out, offset, length)
    {
      if |out'| >= origLen {
        return false, out';
      }
      out' := out' + [out'[start + j]];
      j := j + 1;
    }
    return true, out';
  }

  lemma FlagBit(flag: byte, bit: nat)
    requires bit < 8
    ensures ToBits(flag, 8)[bit..] == [ShiftedRight(flag, bit) % 2 == 1] + ToBits(flag, 8)[bit + 1..]
  {
    BitAt(flag, 8, bit);
  }

  /** One token of a frame, as the flag bit says; `done` when the input stops here. */
  method DecodeToken(input: seq<byte>, p: nat, literal: bool, out: seq<byte>, origLen: nat, ghost flags: seq<bool>)
    returns (done: bool, r: Result, p': nat, out': seq<byte>)
    requires p <= |input| && |out| < origLen && flags != [] && flags[0] == literal
    ensures done ==> Step(input, Cursor(p, flags, out), origLen) == Halt(r)
    ensures !done ==> Step(input, Cursor(p, flags, out), origLen) == Go(Cursor(p', flags[1..], out'))
  {
    r, p', out' := Err(Truncated), p, out;
    if literal {
      if p >= |input| {
        return true, r, p', out';
      }
      return false, r, p + 1, out + [input[p]];
    }
    if p + 2 > |input| {
      return true, r, p', out';
    }
    var packed := FromLE(input[p..p + 2]);
    var offset, length := packed / 16, packed % 16 + MIN_MATCH;
    if offset == 0 || offset > |out| {
      return true, Err(InvalidReference(p)), p', out';
    }
    var ok;
    ok, out' := CopyBytes(out, offset, length, origLen);
    if !ok {
      return true, Err(OutputOverrun), p', out';
    }
    return false, r, p + 2, out';
  }

  /** One flag byte and up to eight tokens. */
  method DecodeFrameTokens(input: seq<byte>, p: nat, out: seq<byte>, origLen: nat)
    returns (done: bool, r: Result, p': nat, out': seq<byte>)
    requires p < |input| && |out| < origLen
    ensures done ==> Decode(input, Cursor(p, [], out), origLen) == r
    ensures !done ==> p < p' <= |input|
    ensures !done ==> Decode(input, Cursor(p, [], out), origLen) == Decode(input, Cursor(p', [], out'), origLen)
  {
    var flag := input[p];
    done, r, p', out' := false, Err(Truncated), p + 1, out;
    var bit := 0;
    while bit < 8 && |out'| < origLen
      invariant 0 <= bit <= 8 && p < p' <= |input|
      invariant Decode(input, Cursor(p, [], out), origLen)
             == Decode(input, Cursor(p', ToBits(flag, 8)[bit..], out'), origLen)
    {
      FlagBit(flag, bit);
      ghost var flags := ToBits(flag, 8)[bit..];
      assert flags[1..] == ToBits(flag, 8)[bit + 1..];
      done, r, p', out' := DecodeToken(input, p', ShiftedRight(flag, bit) % 2 == 1, out', origLen, flags);
      if done {
        return;
      }
      bit := bit + 1;
    }
    if bit == 8 {
      assert ToBits(flag, 8)[bit..] == [];
    }
  }

  method Decompress(input: seq<byte>) returns (r: Result)
    ensures r == DecodeAll(input)
  {
    if |input| < 4 {
      return Err(Truncated);
    }
    var origLen := FromLE(input[..4]);
    var out: seq<byte>, p := [], 4;
    while |out| < origLen
      invariant p <= |input| && Decode(input, Cursor(p, [], out), origLen) == DecodeAll(input)
      decreases |input| - p
    {
      if p >= |input| {
        return Err(Truncated);
      }
      var done;
      done, r, p, out := DecodeFrameTokens(input, p, out, origLen);
      if done {
        return;
      }
    }
    return Ok(out);
  }
}
