/**
 * What the engine reads in a statement text: the front of its lexer and the
 * transaction statements of its parser, in the PostgreSQL dialect.
 */
module TxEngine {
  import opened SqlText
  import Splitter
  import opened Wrappers

  /**
   * `hints` says which bodies of a `/*! ... */` comment hold optimiser hints only, `reserved` lists
   * the words that cannot stand as a name.
   */
  datatype Lexicon = Lexicon(hints: string -> bool, reserved: set<string>)

  // --- Tokens ---

  datatype Token = Word(text: string) | Quoted(text: string) | Dot | Other | End

  /** A token and the text after it. */
  datatype Lexed = Lexed(token: Token, rest: string)

  predicate Blank(c: char) {
    c == ' ' || c == '\t' || c == '\n' || c == '\r'
  }

  predicate Digit(c: char) {
    '0' <= c <= '9'
  }

  predicate Alpha(c: char) {
    WordChar(c) && !Digit(c)
  }

  function AfterDigits(s: string): (r: string)
    ensures |r| <= |s|
  {
    if s != "" && Digit(s[0]) then AfterDigits(s[1..]) else s
  }

  // The body of a versioned comment: after the version and one blank.
  function Versioned(s: string): (r: string)
    ensures |r| <= |s|
  {
    var t := AfterDigits(s);
    if t != "" && (t[0] == ' ' || t[0] == '\t') then t[1..] else t
  }

  /** The text from the next token on; `None` when a comment does not end. */
  function Skip(lex: Lexicon, s: string): (r: Option<string>)
    ensures r.Some? ==> |r.value| <= |s|
    decreases |s|
  {
    if s == "" then Some(s)
    else if Blank(s[0]) then Skip(lex, s[1..])
    else if StartsWith(s, "--") then Skip(lex, s[LineEnd(s, 2)..])
    else if StartsWith(s, "/*!") then
      var body := Versioned(s[3..]);
      var end := Find(body, "*/", 0);
      if end < |body| && lex.hints(body[..end]) then Skip(lex, body[end + 2..]) else Skip(lex, body)
    else if StartsWith(s, "/*+") then
      var end := Find(s, "*/", 3);
      if end == |s| then None else Skip(lex, s[end + 2..])
    else if StartsWith(s, "/*") then
      var r := Splitter.BlockEnd(s, 2, 1);
      if r.open then None else Skip(lex, s[r.end..])
    else if StartsWith(s, "*/") then Skip(lex, s[2..])
    else Some(s)
  }

  // A quoted identifier after its opening quote; a doubled quote stands for itself.
  function QuotedFrom(s: string, quote: char, name: string): (r: Option<Lexed>)
    ensures r.Some? ==> |r.value.rest| <= |s|
    decreases |s|
  {
    if s == "" then None
    else if s[0] == quote then
      if |s| > 1 && s[1] == quote then QuotedFrom(s[2..], quote, name + [quote])
      else Some(Lexed(Quoted(name), s[1..]))
    else if s[0] as int == 0 then None
    else QuotedFrom(s[1..], quote, name + [s[0]])
  }

  // `E'` and `U&'` open string literals.
  predicate OpensString(s: string)
    requires s != ""
  {
    var c := Lower(s[0]);
    || (c == 'e' && |s| > 1 && s[1] == '\'')
    || (c == 'u' && |s| > 2 && s[1] == '&' && s[2] == '\'')
  }

  function TokenAt(s: string): (r: Option<Lexed>)
    ensures r.Some? ==> |r.value.rest| <= |s|
  {
    if s == "" then Some(Lexed(End, s))
    else if s[0] == '"' || s[0] == '`' then QuotedFrom(s[1..], s[0], "")
    else if Alpha(s[0]) && !OpensString(s) then
      var end := Splitter.TagEnd(s, 1);
      Some(Lexed(Word(Lowered(s[..end])), s[end..]))
    else if s[0] == '.' && !(|s| > 1 && Digit(s[1])) then Some(Lexed(Dot, s[1..]))
    else Some(Lexed(Other, s[1..]))
  }

  function Next(lex: Lexicon, s: string): (r: Option<Lexed>)
    ensures r.Some? ==> |r.value.rest| <= |s|
  {
    match Skip(lex, s)
    case None => None
    case Some(t) => TokenAt(t)
  }

  // --- Names ---

  predicate Nameable(lex: Lexicon, t: Token) {
    t.Quoted? || (t.Word? && t.text !in lex.reserved)
  }

  // The name after a dot.
  function Qualified(lex: Lexicon, s: string): Option<string> {
    match Next(lex, s)
    case None => None
    case Some(l) => if Nameable(lex, l.token) then Some(l.token.text) else None
  }

  /** `expect_ident_like`: a bare or quoted identifier, without the schema in front of it. */
  function NameIn(lex: Lexicon, s: string): Option<string> {
    match Next(lex, s)
    case None => None
    case Some(l) =>
      if !Nameable(lex, l.token) then None
      else
        match Next(lex, l.rest)
        case None => None
        case Some(l') => if l'.token == Dot then Qualified(lex, l'.rest) else Some(l.token.text)
  }

  // The keyword SAVEPOINT may be left out.
  function NameAfterSavepoint(lex: Lexicon, s: string): Option<string> {
    match Next(lex, s)
    case None => None
    case Some(l) => NameIn(lex, if l.token == Word("savepoint") then l.rest else s)
  }

  // --- Statements ---

  datatype Meaning =
    | Opens
    | Commits
    | Aborts
    | Saves(name: string)
    | Returns(name: string)
    | Releases(name: string)
    | Runs

  function Named(name: Option<string>, meaning: string -> Meaning): Option<Meaning> {
    match name
    case None => None
    case Some(n) => Some(meaning(n))
  }

  function Starts(lex: Lexicon, rest: string): Option<Meaning> {
    match Next(lex, rest)
    case None => None
    case Some(l) => if l.token == Word("transaction") then Some(Opens) else None
  }

  function RollsBack(lex: Lexicon, rest: string): Option<Meaning> {
    match Next(lex, rest)
    case None => None
    case Some(l) =>
      if l.token == Word("to") then Named(NameAfterSavepoint(lex, l.rest), n => Returns(n)) else Some(Aborts)
  }

  /** A statement by its first token. */
  function Statement(lex: Lexicon, t: Token, rest: string): Option<Meaning> {
    if t == Word("begin") then Some(Opens)
    else if (t.Word? || t.Quoted?) && Lowered(t.text) == "start" then Starts(lex, rest)
    else if t == Word("commit") || t == Word("end") then Some(Commits)
    else if t == Word("rollback") then RollsBack(lex, rest)
    else if t == Word("savepoint") then Named(NameIn(lex, rest), n => Saves(n))
    else if t == Word("release") then Named(NameAfterSavepoint(lex, rest), n => Releases(n))
    else Some(Runs)
  }

  /** What the parser makes of an accepted text; `None` when it refuses. */
  function Read(lex: Lexicon, sql: string): Option<Meaning> {
    match Next(lex, sql)
    case None => None
    case Some(l) => Statement(lex, l.token, l.rest)
  }
}
