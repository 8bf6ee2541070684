/**
 * Splitting undoes joining, exactly when no statement that a semicolon follows
 * runs into it.
 */
module SplitterRoundTrip {
  import opened SqlText
  import opened Splitter
  import opened SplitterJoin

  const SEPARATOR: string := ";\n"

  /** The script of a committed transaction. */
  function Join(ss: seq<string>): string {
    if ss == [] then ""
    else if |ss| == 1 then ss[0]
    else ss[0] + (SEPARATOR + Join(ss[1..]))
  }

  /** The same statements, each but the first behind the line feed of its separator. */
  function Led(lead: string, ss: seq<string>): seq<string>
    decreases |ss|
  {
    if ss == [] then [] else [lead + ss[0]] + Led("\n", ss[1..])
  }

  /** A buffered text: one statement, and after it perhaps semicolons of its own and blanks. */
  datatype Buffered = Buffered(body: string, tail: string)

  predicate Ended(tail: string) {
    tail == "" || (tail[0] == ';' && forall k :: 0 <= k < |tail| ==> tail[k] == ';' || AsciiWhite(tail[k]))
  }

  function Wholes(xs: seq<Buffered>): (r: seq<string>)
    ensures |r| == |xs| && forall i :: 0 <= i < |xs| ==> r[i] == xs[i].body + xs[i].tail
  {
    if xs == [] then [] else [xs[0].body + xs[0].tail] + Wholes(xs[1..])
  }

  function Bodies(xs: seq<Buffered>): (r: seq<string>)
    ensures |r| == |xs| && forall i :: 0 <= i < |xs| ==> r[i] == xs[i].body
  {
    if xs == [] then [] else [xs[0].body] + Bodies(xs[1..])
  }

  /** Each is one statement in the dialect that those before it leave in force. */
  predicate Statements(ts: Tests, lead: string, ss: seq<string>, mysql: bool)
    decreases |ss|
  {
    ss == []
    || (Statement(ss[0], 0, false, mysql)
        && Statements(ts, "\n", ss[1..], ts.note(lead + ss[0], mysql)))
  }

  /** All that a semicolon follows are complete, and are not COPY heads. */
  predicate Sealed(ts: Tests, lead: string, xs: seq<Buffered>, mysql: bool)
    decreases |xs|
  {
    xs == []
    || ((|xs| > 1 || xs[0].tail != "" ==> Complete(xs[0].body, 0, false, mysql) && !ts.copyHead(lead + xs[0].body))
        && Sealed(ts, "\n", xs[1..], ts.note(lead + xs[0].body, mysql)))
  }

  // A place where a statement begins: `lead`, the statement, then `tail`.
  ghost predicate Opens(big: string, p: nat, lead: string, s: string, tail: string) {
    && p <= |big| && big[p..] == lead + (s + tail)
    && (lead == "\n" || (lead == "" && p == 0))
    && (tail == [] || tail[0] == ';')
  }

  // A slice of three parts, read part by part.
  lemma Parts(rest: string, a: string, b: string, c: string)
    requires rest == a + (b + c)
    ensures |rest| == |a| + |b| + |c|
    ensures rest[..|a| + |b|] == a + b
    ensures rest[|a| + |b|..] == c
    ensures forall k :: 0 <= k < |a| ==> rest[k] == a[k]
    ensures forall k: nat :: k < |b| ==> rest[|a| + k] == b[k]
    ensures c != [] ==> rest[|a| + |b|] == c[0]
  {}

  lemma Suffix(big: string, p: nat, n: nat)
    requires p + n <= |big|
    ensures big[p..][n..] == big[p + n..] && big[p..][..n] == big[p..p + n]
    ensures n < |big| - p ==> big[p + n] == big[p..][n]
  {}

  lemma SameParts(big: string, p: nat, lead: string, s: string, tail: string, off: nat)
    requires p <= |big| && big[p..] == lead + (s + tail) && off == p + |lead|
    ensures forall k: nat :: k < |s| ==> Same(big, off, s, k)
  {
    Parts(big[p..], lead, s, tail);
    forall k: nat | k < |s| ensures Same(big, off, s, k) {
      Suffix(big, p, |lead| + k);
    }
  }

  lemma OpensSeated(big: string, p: nat, lead: string, s: string, tail: string)
    requires Opens(big, p, lead, s, tail)
    ensures Seated(big, p + |lead|, s)
    ensures |big| == p + |lead| + |s| + |tail|
    ensures lead != "" ==> big[p] == '\n'
    ensures tail != "" ==> big[p + |lead| + |s|] == ';'
    ensures big[p..p + |lead| + |s|] == lead + s
    ensures tail != "" ==> big[p + |lead| + |s| + 1..] == tail[1..]
  {
    var n := |lead| + |s|;
    Parts(big[p..], lead, s, tail);
    Suffix(big, p, n);
    Suffix(big, p, 0);
    SameParts(big, p, lead, s, tail, p + |lead|);
    if tail != "" {
      Suffix(big, p + n, 1);
    }
  }

  // The statement at `off` in a chunk that begins at `p`, perhaps with a line feed.
  ghost predicate Begins(big: string, p: nat, off: nat, s: string) {
    Seated(big, off, s) && (off == p || (off == p + 1 && p < |big| && big[p] == '\n'))
  }

  lemma Enter(ts: Tests, big: string, p: nat, off: nat, mysql: bool)
    requires p <= off <= |big| && (off == p || (off == p + 1 && big[p] == '\n'))
    ensures Scan(ts, big, p, p, false, mysql) == Scan(ts, big, p, off, false, mysql)
  {
    if off != p { ScanPiece(ts, big, p, p, false, mysql, off, false); }
  }

  lemma SeparatorStep(ts: Tests, s: string, start: nat, i: nat, mysql: bool, chunk: string)
    requires start <= i < |s| && s[i] == ';' && chunk == s[start..i] && !ts.copyHead(chunk)
    ensures Scan(ts, s, start, i, true, mysql) == [chunk] + Scan(ts, s, i + 1, i + 1, false, ts.note(chunk, mysql))
  {}

  lemma CopyStep(ts: Tests, s: string, start: nat, i: nat, mysql: bool)
    requires start <= i < |s| && s[i] == ';' && ts.copyHead(s[start..i])
    ensures var r := Scan(ts, s, start, i, true, mysql);
            r != [] && |r[0]| > i - start
  {}

  lemma ToSeparator(ts: Tests, big: string, p: nat, off: nat, s: string, mysql: bool)
    requires Begins(big, p, off, s) && Statement(s, 0, false, mysql) && Complete(s, 0, false, mysql)
    ensures Scan(ts, big, p, p, false, mysql) == Scan(ts, big, p, off + |s|, true, mysql)
  {
    Enter(ts, big, p, off, mysql);
    Through(ts, big, off, s, p, 0, false, mysql);
  }

  /** A complete statement that is not a COPY head comes out whole, and the scan starts over after it. */
  lemma HeadSealed(ts: Tests, big: string, p: nat, off: nat, s: string, mysql: bool, e: nat, chunk: string)
    requires Begins(big, p, off, s) && Statement(s, 0, false, mysql) && Complete(s, 0, false, mysql)
    requires e == off + |s| < |big| && chunk == big[p..e] && !ts.copyHead(chunk)
    ensures Scan(ts, big, p, p, false, mysql) == [chunk] + Scan(ts, big, e + 1, e + 1, false, ts.note(chunk, mysql))
  {
    ToSeparator(ts, big, p, off, s, mysql);
    SeparatorStep(ts, big, p, e, mysql, chunk);
  }

  /** A COPY head keeps its separator, ... */
  lemma HeadCopy(ts: Tests, big: string, p: nat, off: nat, s: string, mysql: bool, e: nat)
    requires Begins(big, p, off, s) && Statement(s, 0, false, mysql) && Complete(s, 0, false, mysql)
    requires e == off + |s| < |big| && ts.copyHead(big[p..e])
    ensures var r := Scan(ts, big, p, p, false, mysql);
            r != [] && |r[0]| > e - p
  {
    ToSeparator(ts, big, p, off, s, mysql);
    CopyStep(ts, big, p, e, mysql);
  }

  /** ... and so does a statement with an unfinished token. */
  lemma HeadOpen(ts: Tests, big: string, p: nat, off: nat, s: string, mysql: bool, e: nat)
    requires Begins(big, p, off, s) && Statement(s, 0, false, mysql) && !Complete(s, 0, false, mysql)
    requires e == off + |s| < |big|
    ensures var r := Scan(ts, big, p, p, false, mysql);
            r != [] && |r[0]| > e - p
  {
    Enter(ts, big, p, off, mysql);
    Swallows(ts, big, off, s, p, 0, false, mysql);
  }

  lemma HeadLast(ts: Tests, big: string, p: nat, off: nat, s: string, mysql: bool)
    requires Begins(big, p, off, s) && Statement(s, 0, false, mysql) && off + |s| == |big|
    ensures Scan(ts, big, p, p, false, mysql) == [big[p..]]
  {
    Enter(ts, big, p, off, mysql);
    LastChunk(ts, big, off, s, p, 0, false, mysql);
  }

  // The four cases in one: `r` is the result, `x` what the scan yields after the separator.
  lemma Head(ts: Tests, big: string, p: nat, off: nat, s: string, mysql: bool, e: nat, chunk: string)
    returns (r: seq<string>, x: seq<string>)
    requires Begins(big, p, off, s) && Statement(s, 0, false, mysql)
    requires e == off + |s| && chunk == big[p..e]
    ensures r == Scan(ts, big, p, p, false, mysql)
    ensures e < |big| ==> x == Scan(ts, big, e + 1, e + 1, false, ts.note(chunk, mysql))
    ensures e == |big| ==> r == [chunk] && x == []
    ensures e < |big| && Complete(s, 0, false, mysql) && !ts.copyHead(chunk) ==> r == [chunk] + x
    ensures e < |big| && !(Complete(s, 0, false, mysql) && !ts.copyHead(chunk)) ==> r != [] && |r[0]| > |chunk|
  {
    r := Scan(ts, big, p, p, false, mysql);
    if e == |big| {
      x := [];
      HeadLast(ts, big, p, off, s, mysql);
      assert big[p..] == chunk;
    } else {
      x := Scan(ts, big, e + 1, e + 1, false, ts.note(chunk, mysql));
      if !Complete(s, 0, false, mysql) {
        HeadOpen(ts, big, p, off, s, mysql, e);
      } else if ts.copyHead(chunk) {
        HeadCopy(ts, big, p, off, s, mysql, e);
      } else {
        HeadSealed(ts, big, p, off, s, mysql, e, chunk);
      }
    }
  }

  /** Between a statement and the next one semicolons and blanks yield nothing. */
  lemma {:induction false} EmptyRun(ts: Tests, s: string, start: nat, i: nat, q: nat, mysql: bool)
    requires start <= i <= q <= |s| && (q < |s| ==> s[q] == ';')
    requires forall k :: i <= k < q ==> s[k] == ';' || AsciiWhite(s[k])
    ensures Scan(ts, s, start, i, false, mysql) == if q == |s| then [] else Scan(ts, s, q + 1, q + 1, false, mysql)
    decreases q - i
  {
    if i < q {
      if s[i] == ';' {
        EmptyRun(ts, s, i + 1, i + 1, q, mysql);
      } else {
        ScanPiece(ts, s, start, i, false, mysql, i + 1, false);
        EmptyRun(ts, s, start, i + 1, q, mysql);
      }
    }
  }

  lemma Compose(chunk: string, r: seq<string>, x: seq<string>, y: seq<string>, good: bool, rest: bool)
    requires if good then r == [chunk] + x else r != [] && |r[0]| > |chunk|
    requires x == y <==> rest
    ensures r == [chunk] + y <==> good && rest
  {
    assert ([chunk] + x)[1..] == x && ([chunk] + y)[1..] == y;
    assert ([chunk] + y)[0] == chunk;
  }

  lemma Unfold(ts: Tests, lead: string, xs: seq<Buffered>, mysql: bool, x: Buffered, rest: seq<Buffered>, chunk: string, d: bool)
    requires xs != [] && x == xs[0] && rest == xs[1..] && chunk == lead + x.body && d == ts.note(chunk, mysql)
    ensures Led(lead, Bodies(xs)) == [chunk] + Led("\n", Bodies(rest))
    ensures Sealed(ts, lead, xs, mysql) <==>
              (rest != [] || x.tail != "" ==> Complete(x.body, 0, false, mysql) && !ts.copyHead(chunk))
              && Sealed(ts, "\n", rest, d)
    ensures Statements(ts, lead, Bodies(xs), mysql) ==>
              Statement(x.body, 0, false, mysql) && Statements(ts, "\n", Bodies(rest), d)
  {
    assert Bodies(xs)[1..] == Bodies(rest);
  }

  // The joined script behind the first text.
  function Further(rest: seq<Buffered>): string {
    if rest == [] then "" else SEPARATOR + Join(Wholes(rest))
  }

  lemma JoinHead(xs: seq<Buffered>, x: Buffered, rest: seq<Buffered>)
    requires xs != [] && x == xs[0] && rest == xs[1..]
    ensures Join(Wholes(xs)) == x.body + (x.tail + Further(rest))
  {
    var ws := Wholes(rest);
    assert Wholes(xs) == [x.body + x.tail] + ws;
    JoinCons(x.body + x.tail, ws);
    Regroup(x.body, x.tail, Further(rest));
  }

  lemma JoinCons(w: string, ws: seq<string>)
    ensures Join([w] + ws) == w + if ws == [] then "" else SEPARATOR + Join(ws)
  {
    assert ([w] + ws)[1..] == ws;
  }

  lemma Regroup(a: string, b: string, c: string)
    ensures (a + b) + c == a + (b + c)
  {}

  lemma FurtherParts(rest: seq<Buffered>, after: string)
    requires after == Further(rest)
    ensures after == "" <==> rest == []
    ensures rest != [] ==> after[0] == ';' && after[1..] == "\n" + Join(Wholes(rest))
  {
    if rest != [] {
      assert SEPARATOR[1..] == "\n";
      assert after[1..] == SEPARATOR[1..] + Join(Wholes(rest));
    }
  }

  // Where a statement and the semicolons of its own end, in front of the text `after`.
  lemma Place(big: string, p: nat, lead: string, body: string, own: string, after: string, e: nat, q: nat)
    requires p <= |big| && big[p..] == lead + (body + (own + after)) && Ended(own)
    requires lead == "\n" || (lead == "" && p == 0)
    requires after == "" || after[0] == ';'
    requires e == p + |lead| + |body| && q == e + |own|
    ensures Begins(big, p, p + |lead|, body) && e <= q <= |big| && big[p..e] == lead + body
    ensures q == |big| <==> after == ""
    ensures after != "" ==> big[q] == ';' && big[q + 1..] == after[1..]
    ensures e < q ==> big[e] == ';'
    ensures forall k :: e <= k < q ==> big[k] == ';' || AsciiWhite(big[k])
  {
    var tail := own + after;
    OpensSeated(big, p, lead, body, tail);
    Parts(big[p..], lead, body, tail);
    Suffix(big, p, |lead| + |body|);
    OwnTail(big, e, own, after, q);
  }

  lemma OwnTail(big: string, e: nat, own: string, after: string, q: nat)
    requires e <= |big| && big[e..] == own + after && q == e + |own| && Ended(own)
    ensures q <= |big| && (q == |big| <==> after == "")
    ensures after != "" ==> big[q] == after[0] && big[q + 1..] == after[1..]
    ensures e < q ==> big[e] == ';'
    ensures forall k :: e <= k < q ==> big[k] == ';' || AsciiWhite(big[k])
  {
    var rest := big[e..];
    assert forall k :: e <= k < |big| ==> big[k] == rest[k - e];
    if after != "" { assert big[q + 1..] == rest[|own| + 1..] == after[1..]; }
  }

  /** The first statement of a script: what comes of it, and where the scan starts over. */
  lemma FirstAt(ts: Tests, big: string, p: nat, lead: string, body: string, own: string, after: string, mysql: bool)
    returns (r: seq<string>, y: seq<string>, q: nat, good: bool)
    requires p <= |big| && big[p..] == lead + (body + (own + after)) && Ended(own)
    requires lead == "\n" || (lead == "" && p == 0)
    requires (after == "" || after[0] == ';') && Statement(body, 0, false, mysql)
    ensures r == Scan(ts, big, p, p, false, mysql)
    ensures after == "" && own == "" ==> r == [lead + body]
    ensures after == "" ==> y == []
    ensures after != "" ==> q + 1 <= |big| && big[q + 1..] == after[1..]
    ensures after != "" ==> y == Scan(ts, big, q + 1, q + 1, false, ts.note(lead + body, mysql))
    ensures after != "" || own != "" ==> if good then r == [lead + body] + y else r != [] && |r[0]| > |lead + body|
    ensures good <==> Complete(body, 0, false, mysql) && !ts.copyHead(lead + body)
  {
    var chunk, e := lead + body, p + |lead| + |body|;
    q := e + |own|;
    good := Complete(body, 0, false, mysql) && !ts.copyHead(chunk);
    Place(big, p, lead, body, own, after, e, q);
    r, y := Head(ts, big, p, p + |lead|, body, mysql, e, chunk);
    if e < |big| { OwnSkipped(ts, big, e, q, ts.note(chunk, mysql), y); }
  }

  lemma OwnSkipped(ts: Tests, big: string, e: nat, q: nat, d: bool, y: seq<string>)
    requires e <= q <= |big| && e < |big| && (q < |big| ==> big[q] == ';')
    requires forall k :: e <= k < q ==> big[k] == ';' || AsciiWhite(big[k])
    requires y == Scan(ts, big, e + 1, e + 1, false, d)
    ensures q < |big| ==> y == Scan(ts, big, q + 1, q + 1, false, d)
    ensures q == |big| ==> y == []
  {
    if e < q { EmptyRun(ts, big, e + 1, e + 1, q, d); }
  }

  // The script of these texts stands at `p`.
  ghost predicate ScriptAt(big: string, p: nat, lead: string, xs: seq<Buffered>) {
    && p <= |big| && big[p..] == lead + Join(Wholes(xs))
    && (lead == "\n" || (lead == "" && p == 0))
  }

  predicate Readable(ts: Tests, lead: string, xs: seq<Buffered>, mysql: bool) {
    Statements(ts, lead, Bodies(xs), mysql) && forall i :: 0 <= i < |xs| ==> Ended(xs[i].tail)
  }

  predicate Scanned(ts: Tests, big: string, p: nat, mysql: bool, r: seq<string>) {
    p <= |big| && r == Scan(ts, big, p, p, false, mysql)
  }

  lemma FirstOf(ts: Tests, big: string, p: nat, lead: string, xs: seq<Buffered>, mysql: bool, rest: seq<Buffered>, d: bool)
    returns (r: seq<string>, y: seq<string>, q: nat, good: bool)
    requires xs != [] && ScriptAt(big, p, lead, xs) && Readable(ts, lead, xs, mysql)
    requires rest == xs[1..] && d == ts.note(lead + xs[0].body, mysql)
    ensures Scanned(ts, big, p, mysql, r)
    ensures rest == [] && xs[0].tail == "" ==> r == [lead + xs[0].body]
    ensures rest == [] ==> y == []
    ensures rest != [] ==> ScriptAt(big, q + 1, "\n", rest)
    ensures rest != [] ==> Scanned(ts, big, q + 1, d, y)
    ensures Readable(ts, "\n", rest, d)
    ensures rest != [] || xs[0].tail != "" ==>
              if good then r == [lead + xs[0].body] + y else r != [] && |r[0]| > |lead + xs[0].body|
    ensures good <==> Complete(xs[0].body, 0, false, mysql) && !ts.copyHead(lead + xs[0].body)
  {
    var x, after := xs[0], Further(rest);
    JoinHead(xs, x, rest);
    FurtherParts(rest, after);
    Unfold(ts, lead, xs, mysql, x, rest, lead + x.body, d);
    r, y, q, good := FirstAt(ts, big, p, lead, x.body, x.tail, after, mysql);
  }

  /** `r` is the list of statements exactly when the texts are sealed. */
  predicate Decided(ts: Tests, lead: string, xs: seq<Buffered>, mysql: bool, r: seq<string>) {
    r == Led(lead, Bodies(xs)) <==> Sealed(ts, lead, xs, mysql)
  }

  lemma Conclude(ts: Tests, lead: string, xs: seq<Buffered>, mysql: bool, rest: seq<Buffered>, d: bool,
                 r: seq<string>, y: seq<string>, good: bool)
    requires xs != [] && rest == xs[1..] && d == ts.note(lead + xs[0].body, mysql)
    requires good <==> Complete(xs[0].body, 0, false, mysql) && !ts.copyHead(lead + xs[0].body)
    requires rest == [] && xs[0].tail == "" ==> r == [lead + xs[0].body]
    requires rest == [] ==> y == []
    requires rest != [] || xs[0].tail != "" ==>
               if good then r == [lead + xs[0].body] + y else r != [] && |r[0]| > |lead + xs[0].body|
    requires rest != [] ==> Decided(ts, "\n", rest, d, y)
    ensures Decided(ts, lead, xs, mysql, r)
  {
    Unfold(ts, lead, xs, mysql, xs[0], rest, lead + xs[0].body, d);
    if rest != [] || xs[0].tail != "" {
      Compose(lead + xs[0].body, r, y, Led("\n", Bodies(rest)), good, Sealed(ts, "\n", rest, d));
    }
  }

  lemma {:induction false} RoundTripFrom(ts: Tests, big: string, p: nat, lead: string, xs: seq<Buffered>, mysql: bool)
    returns (r: seq<string>)
    requires xs != [] && ScriptAt(big, p, lead, xs) && Readable(ts, lead, xs, mysql)
    ensures Scanned(ts, big, p, mysql, r)
    ensures Decided(ts, lead, xs, mysql, r)
    decreases |xs|
  {
    var rest, d := xs[1..], ts.note(lead + xs[0].body, mysql);
    var y, q, good;
    r, y, q, good := FirstOf(ts, big, p, lead, xs, mysql, rest, d);
    if rest != [] {
      var z := RoundTripFrom(ts, big, q + 1, "\n", rest, d);
      assert z == y;
    }
    Conclude(ts, lead, xs, mysql, rest, d, r, y, good);
  }

  /**
   * The script of a transaction splits back into its statements, without the semicolons they brought
   * along, if and only if all that a semicolon follows are complete and none of those is a COPY head.
   */
  lemma JoinSplits(ts: Tests, xs: seq<Buffered>)
    requires Readable(ts, "", xs, false)
    ensures Split(ts, Join(Wholes(xs)), false) == Led("", Bodies(xs)) <==> Sealed(ts, "", xs, false)
  {
    if xs != [] {
      assert Join(Wholes(xs))[0..] == "" + Join(Wholes(xs));
      var r := RoundTripFrom(ts, Join(Wholes(xs)), 0, "", xs, false);
    }
  }

  function LeadOf(k: nat): string {
    if k == 0 then "" else "\n"
  }

  // A semicolon follows: the separator or one of its own.
  predicate Followed(xs: seq<Buffered>, j: nat)
    requires j < |xs|
  {
    j < |xs| - 1 || xs[j].tail != ""
  }

  lemma {:induction false} PlainFrom(ts: Tests, xs: seq<Buffered>, k: nat)
    requires k <= |xs|
    requires forall j | k <= j < |xs| :: Statement(xs[j].body, 0, false, false) && !ts.note(LeadOf(j) + xs[j].body, false)
    ensures Statements(ts, LeadOf(k), Bodies(xs[k..]), false)
    ensures Sealed(ts, LeadOf(k), xs[k..], false) <==>
            forall j | k <= j < |xs| && Followed(xs, j) ::
              Complete(xs[j].body, 0, false, false) && !ts.copyHead(LeadOf(j) + xs[j].body)
    decreases |xs| - k
  {
    if k < |xs| {
      PlainFrom(ts, xs, k + 1);
      assert Bodies(xs[k..])[1..] == Bodies(xs[k + 1..]);
      Unfold(ts, LeadOf(k), xs[k..], false, xs[k], xs[k + 1..], LeadOf(k) + xs[k].body, false);
    }
  }

  /**
   * The usual case: no statement switches the string dialect. Each comes back,
   * the line feed of its separator in front, if and only if every one that a
   * semicolon follows is complete and is not a COPY head.
   */
  lemma PlainJoinSplits(ts: Tests, xs: seq<Buffered>)
    requires forall j | 0 <= j < |xs| :: Statement(xs[j].body, 0, false, false) && !ts.note(LeadOf(j) + xs[j].body, false)
    requires forall j | 0 <= j < |xs| :: Ended(xs[j].tail)
    ensures Split(ts, Join(Wholes(xs)), false) == Led("", Bodies(xs)) <==>
            forall j | 0 <= j < |xs| && Followed(xs, j) ::
              Complete(xs[j].body, 0, false, false) && !ts.copyHead(LeadOf(j) + xs[j].body)
  {
    PlainFrom(ts, xs, 0);
    assert xs[0..] == xs;
    JoinSplits(ts, xs);
  }

  lemma {:induction false} LedAt(lead: string, ss: seq<string>, k: nat)
    requires k < |ss|
    ensures |Led(lead, ss)| == |ss|
    ensures Led(lead, ss)[k] == (if k == 0 then lead else "\n") + ss[k]
    decreases |ss|
  {
    if |ss| > 1 { LedAt("\n", ss[1..], if k > 0 then k - 1 else 0); }
  }

  // --- The splitter's own tests ---

  lemma ContainsBehind(t: string, pat: string)
    requires pat != [] && pat[0] != '\n'
    ensures Contains("\n" + t, pat) <==> Contains(t, pat)
  {
    var big := "\n" + t;
    forall k: nat | k < |t| ensures Same(big, 1, t, k) {}
    FindSeated(big, 1, t, pat, 0);
    assert |pat| <= |big| ==> big[0..|pat|][0] == '\n';
  }

  lemma LoweredBehind(s: string)
    ensures Lowered("\n" + s) == "\n" + Lowered(s)
  {}

  lemma Utf8Behind(s: string)
    ensures Utf8Len("\n" + s) == 1 + Utf8Len(s)
  {
    assert ("\n" + s)[1..] == s;
  }

  // The line feed in front of a statement does not change its dialect or whether it is a COPY.
  lemma NoteBehind(s: string)
    requires !Note(s, false)
    ensures !Note("\n" + s, false)
  {
    Utf8Behind(s);
    LoweredBehind(s);
    ContainsBehind(Lowered(s), "sql_mode");
    ContainsBehind(Lowered(s), "standard_conforming_strings");
    ContainsBehind(Lowered(s), "off");
  }

  lemma TrimBehind(s: string)
    ensures TrimStart("\n" + s) == TrimStart(s)
  {
    assert ("\n" + s)[1..] == s;
  }

  lemma NoiseOfTrimmed(a: string, b: string)
    requires TrimStart(a) == TrimStart(b)
    ensures StripNoise(a) == StripNoise(b)
  {}

  lemma CopyHeadBehind(copyIn: string -> bool, s: string)
    ensures CopyHead(copyIn, "\n" + s) <==> CopyHead(copyIn, s)
  {
    TrimBehind(s);
    NoiseOfTrimmed("\n" + s, s);
  }

  lemma LeadIgnored(copyIn: string -> bool, ts: Tests, lead: string, body: string)
    requires ts == Standard(copyIn) && (lead == "" || lead == "\n") && !Note(body, false)
    ensures !ts.note(lead + body, false) && (ts.copyHead(lead + body) <==> CopyHead(copyIn, body))
  {
    assert "" + body == body;
    NoteBehind(body);
    CopyHeadBehind(copyIn, body);
  }

  /**
   * The program's own splitter: when no statement turns the string dialect on, the script splits
   * back if and only if every statement that a semicolon follows is complete and no COPY head.
   */
  lemma StandardJoinSplits(copyIn: string -> bool, xs: seq<Buffered>)
    requires forall j | 0 <= j < |xs| ::
      Statement(xs[j].body, 0, false, false) && !Note(xs[j].body, false) && Ended(xs[j].tail)
    ensures Split(Standard(copyIn), Join(Wholes(xs)), false) == Led("", Bodies(xs)) <==>
            forall j | 0 <= j < |xs| && Followed(xs, j) ::
              Complete(xs[j].body, 0, false, false) && !CopyHead(copyIn, xs[j].body)
  {
    var ts := Standard(copyIn);
    forall j | 0 <= j < |xs|
      ensures !ts.note(LeadOf(j) + xs[j].body, false)
      ensures ts.copyHead(LeadOf(j) + xs[j].body) <==> CopyHead(copyIn, xs[j].body)
    {
      LeadIgnored(copyIn, ts, LeadOf(j), xs[j].body);
    }
    PlainJoinSplits(ts, xs);
  }

  lemma ShortNote(s: string)
    requires |s| < 8
    ensures !Note(s, false)
  {
    assert !Contains(Lowered(s), "sql_mode");
    assert !Contains(Lowered(s), "standard_conforming_strings");
  }

  lemma SameTexts(xs: seq<Buffered>, ss: seq<string>)
    requires |xs| == |ss| && forall i :: 0 <= i < |xs| ==> xs[i].body == ss[i] && ss[i] + xs[i].tail == ss[i]
    ensures Wholes(xs) == ss && Bodies(xs) == ss
  {}

  /** A statement that ends in a line comment takes the next one with it. */
  lemma TrailingCommentMerges(copyIn: string -> bool)
    ensures Split(Standard(copyIn), Join(["a--", "b"]), false) != Led("", ["a--", "b"])
  {
    var ss := ["a--", "b"];
    var s := ss[0];
    assert LineEnd(s, 2) == LineEnd(s, 3) == 3;
    assert LineEnd(s, 1) == LineEnd(s, 2);
    assert Lex(s, 0, false, false) == Piece(1, true, false);
    assert Lex(s, 1, true, false) == Piece(3, false, true);
    assert Statement(s, 1, true, false) && !Complete(s, 1, true, false);
    assert Lex(ss[1], 0, false, false) == Piece(1, true, false);
    assert Statement(ss[1], 0, false, false);
    ShortNote(ss[0]);
    ShortNote(ss[1]);
    var xs := [Buffered(ss[0], ""), Buffered(ss[1], "")];
    assert ss[0] + "" == ss[0] && ss[1] + "" == ss[1];
    SameTexts(xs, ss);
    assert Followed(xs, 0);
    StandardJoinSplits(copyIn, xs);
  }
}
