/**
 * A committed transaction is logged as its statements joined with `;` and a
 * line feed, and replayed by splitting that text. This module proves exactly
 * when splitting undoes joining.
 */
module SplitterJoin {
  import opened SqlText
  import opened Splitter

  // --- A statement seated in a longer text ---

  ghost predicate Same(big: string, off: nat, s: string, k: nat) {
    k < |s| && off + k < |big| ==> big[off + k] == s[k]
  }

  /** `s` stands at `off`, after nothing or a line feed, before a `;` or the end. */
  ghost predicate Seated(big: string, off: nat, s: string) {
    && off + |s| <= |big|
    && (forall k: nat :: k < |s| ==> Same(big, off, s, k))
    && (off > 0 ==> big[off - 1] == '\n')
    && (off + |s| < |big| ==> big[off + |s|] == ';')
  }

  // The characters a token looks at: its own, one ahead and two behind.
  lemma Near(big: string, off: nat, s: string, j: nat)
    requires Seated(big, off, s) && j < |s|
    ensures big[off + j] == s[j]
    ensures j + 1 < |s| ==> big[off + j + 1] == s[j + 1]
    ensures j + 2 < |s| ==> big[off + j + 2] == s[j + 2]
    ensures j >= 1 ==> big[off + j - 1] == s[j - 1]
    ensures j >= 2 ==> big[off + j - 2] == s[j - 2]
  {
    assert Same(big, off, s, j);
    assert Same(big, off, s, j + 1) && Same(big, off, s, j + 2);
    assert j >= 1 ==> Same(big, off, s, j - 1);
    assert j >= 2 ==> Same(big, off, s, j - 2);
  }

  // The seated text continues a token exactly when the statement left it open.
  ghost predicate Carries(big: string, off: nat, s: string, r: Extent, R: Extent) {
    if !r.open then R == Extent(off + r.end, false)
    else if off + |s| == |big| then R == Extent(|big|, true)
    else R.end > off + |s|
  }

  lemma {:induction false} StringSeated(big: string, off: nat, s: string, j: nat, esc: bool)
    requires Seated(big, off, s) && j <= |s|
    ensures Carries(big, off, s, StringEnd(s, j, esc), StringEnd(big, off + j, esc))
    decreases |s| - j
  {
    if j < |s| {
      Near(big, off, s, j);
      if esc && s[j] == '\\' {
        if j + 1 < |s| { StringSeated(big, off, s, j + 2, esc); }
      } else if s[j] == '\'' {
        if j + 1 < |s| && s[j + 1] == '\'' { StringSeated(big, off, s, j + 2, esc); }
      } else {
        StringSeated(big, off, s, j + 1, esc);
      }
    }
  }

  lemma {:induction false} IdentSeated(big: string, off: nat, s: string, j: nat)
    requires Seated(big, off, s) && j <= |s|
    ensures Carries(big, off, s, IdentEnd(s, j), IdentEnd(big, off + j))
    decreases |s| - j
  {
    if j < |s| {
      Near(big, off, s, j);
      if s[j] != '"' { IdentSeated(big, off, s, j + 1); }
    }
  }

  lemma {:induction false} BlockSeated(big: string, off: nat, s: string, j: nat, depth: nat)
    requires Seated(big, off, s) && j <= |s|
    ensures Carries(big, off, s, BlockEnd(s, j, depth), BlockEnd(big, off + j, depth))
    decreases |s| - j
  {
    if j < |s| && depth > 0 {
      Near(big, off, s, j);
      if s[j] == '/' && j + 1 < |s| && s[j + 1] == '*' {
        BlockSeated(big, off, s, j + 2, depth + 1);
      } else if s[j] == '*' && j + 1 < |s| && s[j + 1] == '/' {
        BlockSeated(big, off, s, j + 2, depth - 1);
      } else {
        BlockSeated(big, off, s, j + 1, depth);
      }
    }
  }

  lemma {:induction false} LineSeated(big: string, off: nat, s: string, j: nat)
    requires Seated(big, off, s) && j <= |s|
    ensures var n, N := LineEnd(s, j), LineEnd(big, off + j);
            if n < |s| then N == off + n
            else if off + |s| == |big| then N == |big| else N > off + |s|
    ensures off + |s| + 1 < |big| && big[off + |s| + 1] == '\n' && LineEnd(s, j) == |s| ==>
              LineEnd(big, off + j) == off + |s| + 1
    decreases |s| - j
  {
    if j < |s| {
      Near(big, off, s, j);
      if s[j] != '\n' { LineSeated(big, off, s, j + 1); }
    }
  }

  lemma {:induction false} TagSeated(big: string, off: nat, s: string, j: nat)
    requires Seated(big, off, s) && j <= |s|
    ensures TagEnd(big, off + j) == off + TagEnd(s, j)
    decreases |s| - j
  {
    if j < |s| {
      Near(big, off, s, j);
      if WordChar(s[j]) { TagSeated(big, off, s, j + 1); }
    }
  }

  lemma SliceSeated(big: string, off: nat, s: string, a: nat, b: nat)
    requires Seated(big, off, s) && a <= b <= |s|
    ensures big[off + a..off + b] == s[a..b]
  {
    forall k | a <= k < b ensures big[off + k] == s[k] { Near(big, off, s, k); }
  }

  lemma OccursSeated(big: string, off: nat, s: string, pat: string, k: nat)
    requires Seated(big, off, s) && k + |pat| <= |s|
    ensures OccursAt(big, pat, off + k) <==> OccursAt(s, pat, k)
  {
    SliceSeated(big, off, s, k, k + |pat|);
  }

  lemma {:induction false} FindSeated(big: string, off: nat, s: string, pat: string, j: nat)
    requires Seated(big, off, s) && j <= |s| && pat != []
    ensures var k, K := Find(s, pat, j), Find(big, pat, off + j);
            if k < |s| then K == off + k
            else if off + |s| == |big| then K == |big| else K + |pat| > off + |s|
    decreases |s| - j
  {
    if j < |s| {
      if j + |pat| <= |s| { OccursSeated(big, off, s, pat, j); }
      if !OccursAt(s, pat, j) {
        FindSeated(big, off, s, pat, j + 1);
      }
    }
  }

  lemma BodySeated(big: string, off: nat, s: string, tag: string, j: nat)
    requires Seated(big, off, s) && j <= |s| && tag != []
    ensures Carries(big, off, s, BodyEnd(s, tag, j), BodyEnd(big, tag, off + j))
  {
    FindSeated(big, off, s, tag, j);
  }

  lemma TagLenSeated(big: string, off: nat, s: string, i: nat)
    requires Seated(big, off, s) && i < |s|
    ensures TagLen(big, off + i) == TagLen(s, i)
  {
    TagSeated(big, off, s, i + 1);
    var te := TagEnd(s, i + 1);
    if te < |s| { Near(big, off, s, te); }
  }

  lemma DollarSeated(big: string, off: nat, s: string, i: nat, tag: string)
    requires Seated(big, off, s) && i < |s| && i + |tag| <= |s|
    ensures Carries(big, off, s, DollarEnd(s, i, tag), DollarEnd(big, off + i, tag))
  {
    if tag != "" {
      BodySeated(big, off, s, tag, i + |tag|);
    }
  }

  lemma QuoteSeated(big: string, off: nat, s: string, i: nat, mysql: bool)
    requires Seated(big, off, s) && i < |s| && (s[i] == '\'' || s[i] == '"')
    ensures Carries(big, off, s, PieceEnd(s, i, mysql), PieceEnd(big, off + i, mysql))
  {
    Near(big, off, s, i);
    if s[i] == '\'' {
      StringSeated(big, off, s, i + 1, mysql || AfterE(s, i));
    } else {
      IdentSeated(big, off, s, i + 1);
    }
  }

  lemma DollarPiece(s: string, i: nat, mysql: bool, tag: string)
    requires i < |s| && s[i] == '$' && tag == s[i..i + TagLen(s, i)]
    ensures PieceEnd(s, i, mysql) == DollarEnd(s, i, tag)
  {}

  lemma TagPieceSeated(big: string, off: nat, s: string, i: nat, mysql: bool)
    requires Seated(big, off, s) && i < |s| && s[i] == '$'
    ensures Carries(big, off, s, PieceEnd(s, i, mysql), PieceEnd(big, off + i, mysql))
  {
    Near(big, off, s, i);
    TagLenSeated(big, off, s, i);
    SliceSeated(big, off, s, i, i + TagLen(s, i));
    var tag := s[i..i + TagLen(s, i)];
    DollarPiece(s, i, mysql, tag);
    DollarPiece(big, off + i, mysql, tag);
    DollarSeated(big, off, s, i, tag);
  }

  lemma CommentSeated(big: string, off: nat, s: string, i: nat, mysql: bool)
    requires Seated(big, off, s) && i < |s| && (LineComment(s, i) || BlockComment(s, i))
    ensures Carries(big, off, s, PieceEnd(s, i, mysql), PieceEnd(big, off + i, mysql))
  {
    Near(big, off, s, i);
    if LineComment(s, i) {
      LineSeated(big, off, s, i);
    } else {
      BlockSeated(big, off, s, i + 2, 1);
    }
  }

  lemma PieceSeated(big: string, off: nat, s: string, i: nat, mysql: bool)
    requires Seated(big, off, s) && i < |s| && s[i] != ';'
    ensures Carries(big, off, s, PieceEnd(s, i, mysql), PieceEnd(big, off + i, mysql))
  {
    if s[i] == '\'' || s[i] == '"' {
      QuoteSeated(big, off, s, i, mysql);
    } else if s[i] == '$' {
      TagPieceSeated(big, off, s, i, mysql);
    } else if LineComment(s, i) || BlockComment(s, i) {
      CommentSeated(big, off, s, i, mysql);
    } else {
      Near(big, off, s, i);
    }
  }

  /** A token that ends inside the statement is the same token in the longer text. */
  lemma LexSeated(big: string, off: nat, s: string, i: nat, has: bool, mysql: bool)
    requires Seated(big, off, s) && i < |s|
    ensures var l, L := Lex(s, i, has, mysql), Lex(big, off + i, has, mysql);
            && (L.Semi? <==> l.Semi?)
            && (L.Piece? <==> l.Piece?)
            && (l.Piece? ==> L.content == l.content)
            && (l.Piece? ==> Carries(big, off, s, Extent(l.end, l.open), Extent(L.end, L.open)))
  {
    Near(big, off, s, i);
    if s[i] != ';' {
      PieceSeated(big, off, s, i, mysql);
    }
  }

  // --- Chunks ---

  lemma ScanPiece(ts: Tests, s: string, start: nat, i: nat, has: bool, mysql: bool, end: nat, content: bool)
    requires start <= i < |s|
    requires var l := Lex(s, i, has, mysql);
             l.Piece? && l.end == end && l.content == content
    ensures Scan(ts, s, start, i, has, mysql) == Scan(ts, s, start, end, has || content, mysql)
  {}

  lemma {:induction false} FirstChunk(ts: Tests, s: string, start: nat, i: nat, mysql: bool)
    requires start <= i <= |s|
    ensures var r := Scan(ts, s, start, i, true, mysql);
            r != [] && |r[0]| >= i - start
    decreases |s| - i
  {
    if i < |s| {
      var l := Lex(s, i, true, mysql);
      if l.Piece? { FirstChunk(ts, s, start, l.end, mysql); }
    }
  }

  /** One statement: no separator, no meta-command, some content. Its last token may be unfinished. */
  predicate Statement(s: string, i: nat, has: bool, mysql: bool)
    requires i <= |s|
    decreases |s| - i
  {
    if i == |s| then has
    else
      var l := Lex(s, i, has, mysql);
      l.Piece? && Statement(s, l.end, has || l.content, mysql)
  }

  /** Every token of the statement is finished: it does not run into what follows. */
  predicate Complete(s: string, i: nat, has: bool, mysql: bool)
    requires i <= |s|
    decreases |s| - i
  {
    i == |s|
    || (var l := Lex(s, i, has, mysql);
        l.Piece? && !l.open && Complete(s, l.end, has || l.content, mysql))
  }

  predicate OpenAt(s: string, i: nat, has: bool, mysql: bool)
    requires i < |s|
  {
    var l := Lex(s, i, has, mysql);
    l.Piece? && l.open
  }

  // One token of a seated statement that does not run past it.
  lemma Step(ts: Tests, big: string, off: nat, s: string, start: nat, i: nat, has: bool, mysql: bool)
    returns (end: nat, has': bool)
    requires Seated(big, off, s) && start <= off && i < |s| && Statement(s, i, has, mysql)
    requires !OpenAt(s, i, has, mysql) || off + |s| == |big|
    ensures i < end <= |s| && Statement(s, end, has', mysql)
    ensures Complete(s, i, has, mysql) <==> !OpenAt(s, i, has, mysql) && Complete(s, end, has', mysql)
    ensures Scan(ts, big, start, off + i, has, mysql) == Scan(ts, big, start, off + end, has', mysql)
  {
    LexSeated(big, off, s, i, has, mysql);
    var l := Lex(s, i, has, mysql);
    end, has' := l.end, has || l.content;
    ScanPiece(ts, big, start, off + i, has, mysql, off + end, l.content);
  }

  /** A complete statement is scanned through to the separator after it. */
  lemma {:induction false} Through(ts: Tests, big: string, off: nat, s: string, start: nat, i: nat, has: bool, mysql: bool)
    requires Seated(big, off, s) && start <= off && i <= |s| && Statement(s, i, has, mysql)
    requires Complete(s, i, has, mysql)
    ensures Scan(ts, big, start, off + i, has, mysql) == Scan(ts, big, start, off + |s|, true, mysql)
    decreases |s| - i
  {
    if i < |s| {
      var end, has' := Step(ts, big, off, s, start, i, has, mysql);
      Through(ts, big, off, s, start, end, has', mysql);
    }
  }

  // A token left open takes the separator into the statement's own chunk.
  lemma OpenSwallows(ts: Tests, big: string, off: nat, s: string, start: nat, i: nat, has: bool, mysql: bool)
    requires Seated(big, off, s) && start <= off && i < |s| && off + |s| < |big|
    requires Statement(s, i, has, mysql) && OpenAt(s, i, has, mysql)
    ensures var r := Scan(ts, big, start, off + i, has, mysql);
            r != [] && |r[0]| > off + |s| - start
  {
    LexSeated(big, off, s, i, has, mysql);
    var end := Lex(big, off + i, has, mysql).end;
    ScanPiece(ts, big, start, off + i, has, mysql, end, Lex(s, i, has, mysql).content);
    FirstChunk(ts, big, start, end, mysql);
  }

  /** An unfinished token swallows the separator: the chunk comes out too long. */
  lemma {:induction false} Swallows(ts: Tests, big: string, off: nat, s: string, start: nat, i: nat, has: bool, mysql: bool)
    requires Seated(big, off, s) && start <= off && i <= |s| && off + |s| < |big|
    requires Statement(s, i, has, mysql) && !Complete(s, i, has, mysql)
    ensures var r := Scan(ts, big, start, off + i, has, mysql);
            r != [] && |r[0]| > off + |s| - start
    decreases |s| - i
  {
    if OpenAt(s, i, has, mysql) {
      OpenSwallows(ts, big, off, s, start, i, has, mysql);
    } else {
      var end, has' := Step(ts, big, off, s, start, i, has, mysql);
      Swallows(ts, big, off, s, start, end, has', mysql);
    }
  }

  /** At the end of the text, finished or not, a statement is one chunk. */
  lemma {:induction false} LastChunk(ts: Tests, big: string, off: nat, s: string, start: nat, i: nat, has: bool, mysql: bool)
    requires Seated(big, off, s) && start <= off && i <= |s| && Statement(s, i, has, mysql)
    requires off + |s| == |big|
    ensures Scan(ts, big, start, off + i, has, mysql) == [big[start..]]
    decreases |s| - i
  {
    if i < |s| {
      var end, has' := Step(ts, big, off, s, start, i, has, mysql);
      LastChunk(ts, big, off, s, start, end, has', mysql);
    }
  }

  // --- Statements and single chunks ---

  lemma {:induction false} ChunksFit(ts: Tests, s: string, start: nat, i: nat, has: bool, mysql: bool)
    requires start <= i <= |s|
    ensures forall c :: c in Scan(ts, s, start, i, has, mysql) ==> |c| <= |s| - start
    decreases |s| - i
  {
    if i < |s| {
      match Lex(s, i, has, mysql)
      case Meta(e) => ChunksFit(ts, s, e, e, false, mysql);
      case Piece(e, content, _) => ChunksFit(ts, s, start, e, has || content, mysql);
      case Semi =>
        if !has {
          ChunksFit(ts, s, i + 1, i + 1, false, mysql);
        } else if ts.copyHead(s[start..i]) {
          var d := CopyData(ts.terminator, s, i + 1);
          ChunksFit(ts, s, d.after, d.after, false, mysql);
        } else {
          ChunksFit(ts, s, i + 1, i + 1, false, ts.note(s[start..i], mysql));
        }
    }
  }

  // A scan that is not over at a separator or a meta-command yields something else than the text.
  lemma NotWhole(ts: Tests, s: string, i: nat, has: bool, mysql: bool)
    requires i < |s| && !Lex(s, i, has, mysql).Piece? && !ts.copyHead(s[..i])
    ensures Scan(ts, s, 0, i, has, mysql) != [s]
  {
    var r := Scan(ts, s, 0, i, has, mysql);
    var l := Lex(s, i, has, mysql);
    assert s[0..i] == s[..i];
    if l.Semi? && has {
      assert r[0] == s[..i];
    } else {
      var e := if l.Semi? then i + 1 else l.end;
      ChunksFit(ts, s, e, e, false, mysql);
      assert forall c :: c in r ==> |c| <= |s| - e;
      assert s in [s];
    }
  }

  lemma {:induction false} WholeFrom(ts: Tests, s: string, i: nat, has: bool, mysql: bool)
    requires i <= |s| && (forall k | 0 <= k <= |s| :: !ts.copyHead(s[..k]))
    ensures Scan(ts, s, 0, i, has, mysql) == [s] <==> Statement(s, i, has, mysql)
    decreases |s| - i
  {
    if i < |s| {
      var l := Lex(s, i, has, mysql);
      if l.Piece? {
        ScanPiece(ts, s, 0, i, has, mysql, l.end, l.content);
        WholeFrom(ts, s, l.end, has || l.content, mysql);
      } else {
        NotWhole(ts, s, i, has, mysql);
      }
    } else {
      assert s[0..] == s;
    }
  }

  /** A text without a COPY head is one statement exactly when the splitter returns it whole. */
  lemma StatementIffWhole(ts: Tests, s: string, mysql: bool)
    requires forall k | 0 <= k <= |s| :: !ts.copyHead(s[..k])
    ensures Split(ts, s, mysql) == [s] <==> Statement(s, 0, false, mysql)
  {
    WholeFrom(ts, s, 0, false, mysql);
  }
}
