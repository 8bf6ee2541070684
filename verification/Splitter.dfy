/**
 * The statement splitter that replays a committed transaction: one pass over
 * the script that cuts it at every top-level `;`.
 *
 * Text is a sequence of Unicode scalars. Every test the scanner makes is
 * against an ASCII character, which never occurs inside a multi-byte one, so
 * positions in characters and positions in bytes visit the same tokens.
 */
module SqlText {
  // `char::is_whitespace`.
  predicate White(c: char) {
    var n := c as int;
    9 <= n <= 13 || n == 32 || n == 0x85 || n == 0xA0 || n == 0x1680 || 0x2000 <= n <= 0x200A
    || n == 0x2028 || n == 0x2029 || n == 0x202F || n == 0x205F || n == 0x3000
  }

  // `u8::is_ascii_whitespace`, which leaves out the vertical tab.
  predicate AsciiWhite(c: char) {
    c == ' ' || c == '\t' || c == '\n' || c == '\r' || c as int == 12
  }

  predicate WordChar(c: char) {
    'a' <= c <= 'z' || 'A' <= c <= 'Z' || '0' <= c <= '9' || c == '_'
  }

  function Lower(c: char): char {
    if 'A' <= c <= 'Z' then c - 'A' + 'a' else c
  }

  function Lowered(s: string): (r: string)
    ensures |r| == |s|
    ensures forall i :: 0 <= i < |s| ==> r[i] == Lower(s[i])
  {
    seq(|s|, i requires 0 <= i < |s| => Lower(s[i]))
  }

  function Utf8Len(s: string): nat {
    if s == [] then 0
    else
      var n := s[0] as int;
      (if n < 0x80 then 1 else if n < 0x800 then 2 else if n < 0x10000 then 3 else 4) + Utf8Len(s[1..])
  }

  predicate OccursAt(t: string, pat: string, j: nat) {
    j + |pat| <= |t| && t[j..j + |pat|] == pat
  }

  /** The first occurrence of a pattern at or after `j`; the length of the text when there is none. */
  function Find(t: string, pat: string, j: nat): (k: nat)
    requires j <= |t| && pat != []
    ensures j <= k <= |t|
    ensures k < |t| ==> k + |pat| <= |t|
    decreases |t| - j
  {
    if j == |t| || OccursAt(t, pat, j) then j else Find(t, pat, j + 1)
  }

  predicate Contains(t: string, pat: string)
    requires pat != []
  {
    Find(t, pat, 0) < |t|
  }

  function TrimStart(s: string): (r: string)
    ensures |r| <= |s|
    ensures r != [] ==> !White(r[0])
  {
    if s != [] && White(s[0]) then TrimStart(s[1..]) else s
  }

  function TrimEnd(s: string): (r: string)
    ensures |r| <= |s|
    ensures r != [] ==> !White(r[|r| - 1])
  {
    if s != [] && White(s[|s| - 1]) then TrimEnd(s[..|s| - 1]) else s
  }

  predicate StartsWith(s: string, p: string) {
    |p| <= |s| && s[..|p|] == p
  }

  // The first line feed at or after `j`, or the end of the text.
  function LineEnd(s: string, j: nat): (k: nat)
    requires j <= |s|
    ensures j <= k <= |s| && (k < |s| ==> s[k] == '\n')
    decreases |s| - j
  {
    if j == |s| || s[j] == '\n' then j else LineEnd(s, j + 1)
  }

  /** Drops white space, line comments and plain block comments in front of a statement. */
  function StripNoise(s: string): string
    decreases |s|, 1
  {
    StripComment(TrimStart(s))
  }

  // A text without white space in front.
  function StripComment(t: string): string
    decreases |t|, 0
  {
    if StartsWith(t, "--") then
      var n := LineEnd(t, 2);
      if n == |t| then "" else StripNoise(t[n + 1..])
    else if StartsWith(t, "/*") && !StartsWith(t, "/*!") then
      var e := Find(t, "*/", 0);
      if e == |t| then "" else StripNoise(t[e + 2..])
    else t
  }

  /** Whether a terminated statement is a COPY that owns the data lines after it. */
  predicate CopyHead(copyIn: string -> bool, chunk: string) {
    var clean := StripNoise(chunk);
    |clean| >= 4 && Lowered(clean[..4]) == "copy" && copyIn(clean)
  }

  /** The string dialect in force after a statement. */
  function Note(chunk: string, mysql: bool): bool {
    if Utf8Len(chunk) > 4096 then mysql
    else
      var lower := Lowered(chunk);
      if Contains(lower, "sql_mode") then true
      else if Contains(lower, "standard_conforming_strings") then Contains(lower, "off")
      else mysql
  }

  // A line that ends the data of a COPY.
  predicate Terminator(line: string) {
    TrimEnd(TrimStart(line)) == "\\."
  }
}

module Splitter {
  import opened SqlText

  /**
   * The tests the scan makes on whole pieces of text: is a terminated statement
   * a COPY that owns the lines after it, which string dialect is in force after
   * a statement, does a line end the data of a COPY.
   */
  datatype Tests = Tests(copyHead: string -> bool, note: (string, bool) -> bool, terminator: string -> bool)

  // --- Tokens, each with the index where the next one begins ---

  // A quote right after a standalone E opens an escape string.
  predicate AfterE(s: string, i: nat)
    requires i <= |s|
  {
    i >= 1 && (s[i - 1] == 'e' || s[i - 1] == 'E') && !(i >= 2 && WordChar(s[i - 2]))
  }

  // `open`: the text ran out before the token was complete.
  datatype Extent = Extent(end: nat, open: bool)

  // The rest of a string literal, its closing quote included.
  function StringEnd(s: string, j: nat, esc: bool): (r: Extent)
    requires j <= |s|
    ensures j <= r.end <= |s|
    ensures if r.open then r.end == |s| else j < r.end
    decreases |s| - j
  {
    if j == |s| then Extent(j, true)
    else if esc && s[j] == '\\' then
      if j + 1 == |s| then Extent(|s|, true) else StringEnd(s, j + 2, esc)
    else if s[j] == '\'' then
      if j + 1 < |s| && s[j + 1] == '\'' then StringEnd(s, j + 2, esc) else Extent(j + 1, false)
    else StringEnd(s, j + 1, esc)
  }

  // The rest of a quoted identifier, its closing quote included.
  function IdentEnd(s: string, j: nat): (r: Extent)
    requires j <= |s|
    ensures j <= r.end <= |s|
    ensures if r.open then r.end == |s| else j < r.end
    decreases |s| - j
  {
    if j == |s| then Extent(j, true)
    else if s[j] == '"' then Extent(j + 1, false)
    else IdentEnd(s, j + 1)
  }

  // The rest of a block comment that is still `depth` deep.
  function BlockEnd(s: string, j: nat, depth: nat): (r: Extent)
    requires j <= |s|
    ensures j <= r.end <= |s|
    ensures r.open ==> r.end == |s|
    decreases |s| - j
  {
    if depth == 0 then Extent(j, false)
    else if j == |s| then Extent(j, true)
    else if s[j] == '/' && j + 1 < |s| && s[j + 1] == '*' then BlockEnd(s, j + 2, depth + 1)
    else if s[j] == '*' && j + 1 < |s| && s[j + 1] == '/' then BlockEnd(s, j + 2, depth - 1)
    else BlockEnd(s, j + 1, depth)
  }

  function TagEnd(s: string, j: nat): (k: nat)
    requires j <= |s|
    ensures j <= k <= |s|
    decreases |s| - j
  {
    if j == |s| || !WordChar(s[j]) then j else TagEnd(s, j + 1)
  }

  // A dollar-quoted body up to the end of its closing tag.
  function BodyEnd(s: string, tag: string, j: nat): (r: Extent)
    requires j <= |s| && tag != []
    ensures j <= r.end <= |s|
    ensures r.open ==> r.end == |s|
  {
    var close := Find(s, tag, j);
    if close < |s| then Extent(close + |tag|, false) else Extent(|s|, true)
  }

  // The length of the tag that opens a dollar quote; zero for a plain `$`.
  function TagLen(s: string, i: nat): (n: nat)
    requires i < |s|
    ensures i + n <= |s|
  {
    var te := TagEnd(s, i + 1);
    if te < |s| && s[te] == '$' then te + 1 - i else 0
  }

  function DollarEnd(s: string, i: nat, tag: string): (r: Extent)
    requires i < |s| && i + |tag| <= |s|
    ensures i < r.end <= |s|
    ensures r.open ==> r.end == |s|
  {
    if tag == "" then Extent(i + 1, false) else BodyEnd(s, tag, i + |tag|)
  }

  datatype Lexeme =
    | Meta(end: nat)
    | Semi
    | Piece(end: nat, content: bool, open: bool)

  // A line with its line feed, where it has one.
  function PastLine(s: string, j: nat): (k: nat)
    requires j < |s|
    ensures j < k <= |s| && (k < |s| ==> s[k - 1] == '\n')
  {
    var n := LineEnd(s, j);
    if n < |s| then n + 1 else n
  }

  predicate LineComment(s: string, i: nat) {
    i + 1 < |s| && s[i] == '-' && s[i + 1] == '-'
  }

  predicate BlockComment(s: string, i: nat) {
    i + 1 < |s| && s[i] == '/' && s[i + 1] == '*'
  }

  // Anything but white space, line comments and plain block comments.
  predicate IsContent(s: string, i: nat)
    requires i < |s|
  {
    if LineComment(s, i) then false
    else if BlockComment(s, i) then i + 2 < |s| && s[i + 2] == '!'
    else !AsciiWhite(s[i])
  }

  function PieceEnd(s: string, i: nat, mysql: bool): (r: Extent)
    requires i < |s|
    ensures i < r.end <= |s|
    ensures r.open ==> r.end == |s|
  {
    if s[i] == '\'' then StringEnd(s, i + 1, mysql || AfterE(s, i))
    else if s[i] == '"' then IdentEnd(s, i + 1)
    else if s[i] == '$' then DollarEnd(s, i, s[i..i + TagLen(s, i)])
    else if LineComment(s, i) then Extent(PastLine(s, i), LineEnd(s, i) == |s|)
    else if BlockComment(s, i) then BlockEnd(s, i + 2, 1)
    else Extent(i + 1, false)
  }

  /** The token at index `i` of a statement that has content so far or not. */
  function Lex(s: string, i: nat, has: bool, mysql: bool): (l: Lexeme)
    requires i < |s|
    ensures l.Semi? || i < l.end <= |s|
    ensures l.Piece? && l.open ==> l.end == |s|
    ensures l.Semi? <==> s[i] == ';'
    ensures l.Meta? <==> s[i] == '\\' && !has
  {
    var c := s[i];
    if c == '\\' && !has then Meta(PastLine(s, i))
    else if c == ';' then Semi
    else
      var r := PieceEnd(s, i, mysql);
      Piece(r.end, IsContent(s, i), r.open)
  }

  // --- COPY data ---

  // `next` is where the terminator line begins, `after` where the line after it does.
  datatype Data = Data(next: nat, after: nat, torn: bool)

  function CopyData(end: string -> bool, s: string, j: nat): (d: Data)
    requires j <= |s|
    ensures j <= d.next <= d.after <= |s|
    ensures if d.torn then d.next == |s| else d.next < d.after
    decreases |s| - j
  {
    if j == |s| then Data(j, j, true)
    else if end(s[j..LineEnd(s, j)]) then Data(j, PastLine(s, j), false)
    else CopyData(end, s, PastLine(s, j))
  }

  // --- The scan ---

  /** The statements still to come, the current one having begun at `start`. */
  function Scan(ts: Tests, s: string, start: nat, i: nat, has: bool, mysql: bool): seq<string>
    requires start <= i <= |s|
    decreases |s| - i
  {
    if i == |s| then (if has then [s[start..]] else [])
    else
      match Lex(s, i, has, mysql)
      case Meta(e) => Scan(ts, s, e, e, false, mysql)
      case Piece(e, content, _) => Scan(ts, s, start, e, has || content, mysql)
      case Semi =>
        if !has then Scan(ts, s, i + 1, i + 1, false, mysql)
        else if ts.copyHead(s[start..i]) then
          var d := CopyData(ts.terminator, s, i + 1);
          [s[start..d.next]] + Scan(ts, s, d.after, d.after, false, mysql)
        else [s[start..i]] + Scan(ts, s, i + 1, i + 1, false, ts.note(s[start..i], mysql))
  }

  /** A whole script, read in a given string dialect. */
  function Split(ts: Tests, sql: string, mysql: bool): seq<string> {
    Scan(ts, sql, 0, 0, false, mysql)
  }

  /** The splitter's own tests; `copyIn` says whether the COPY parser claims a statement. */
  function Standard(copyIn: string -> bool): Tests {
    Tests(s => CopyHead(copyIn, s), (s, mysql) => Note(s, mysql), line => Terminator(line))
  }
}
