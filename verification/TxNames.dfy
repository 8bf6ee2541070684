/**
 * How the two sides name the savepoint in one text: the parser by identifier,
 * without its schema, the buffer by the lower-cased word.
 */
module TxNames {
  import opened SqlText
  import opened TxBuffer
  import opened TxRefinement
  import opened TxEngine
  import opened TxWords
  import Splitter
  import opened Wrappers

  /** The engine's name for the text after the keyword. */
  function NameOf(lex: Lexicon, w: string): string {
    match NameIn(lex, w)
    case None => ""
    case Some(name) => name
  }

  /** The buffer's key for it. */
  function KeyOf(w: string): string {
    var words := Words(w, 0, "");
    if words == [] then "" else words[0]
  }

  function SourceNaming(lex: Lexicon): Naming {
    Naming(w => NameOf(lex, w), w => KeyOf(w))
  }

  // --- Statement texts ---

  /** The text of each savepoint statement, its keywords in lower case. */
  function Text(op: Op): string {
    match op
    case Run(stmt) => stmt
    case MakeSave(at) => "savepoint" + ([' '] + at)
    case BackTo(at) => "rollback" + ([' '] + ("to" + ([' '] + ("savepoint" + ([' '] + at)))))
    case Drop(at) => "release" + ([' '] + ("savepoint" + ([' '] + at)))
  }

  predicate Identifier(w: string) {
    w != "" && Alpha(w[0]) && forall k :: 0 <= k < |w| ==> WordChar(w[k])
  }

  // Text that ends an identifier before it and opens no string with it.
  predicate Apart(rest: string) {
    rest == "" || (!WordChar(rest[0]) && rest[0] != '\'' && rest[0] != '&')
  }

  lemma {:induction false} TagEndAt(w: string, rest: string, j: nat)
    requires j <= |w| && (forall k :: 0 <= k < |w| ==> WordChar(w[k])) && Apart(rest)
    ensures Splitter.TagEnd(w + rest, j) == |w|
    decreases |w| - j
  {
    if j < |w| {
      assert (w + rest)[j] == w[j];
      TagEndAt(w, rest, j + 1);
    }
  }

  lemma IdentifierToken(w: string, rest: string)
    requires Identifier(w) && Apart(rest)
    ensures TokenAt(w + rest) == Some(Lexed(Word(Lowered(w)), rest))
  {
    var s := w + rest;
    TagEndAt(w, rest, 1);
    assert s[..|w|] == w && s[|w|..] == rest && s[0] == w[0];
    assert |w| > 1 ==> WordChar(s[1]) && s[1] == w[1];
    assert !OpensString(s);
    WordToken(s, |w|);
  }

  lemma IdentifierNext(lex: Lexicon, w: string, rest: string)
    requires Identifier(w) && Apart(rest)
    ensures Next(lex, w + rest) == Some(Lexed(Word(Lowered(w)), rest))
  {
    assert (w + rest)[0] == w[0];
    NextAt(lex, w + rest);
    IdentifierToken(w, rest);
  }

  lemma NameBehind(lex: Lexicon, w: string)
    ensures NameIn(lex, [' '] + w) == NameIn(lex, w)
    ensures NameAfterSavepoint(lex, [' '] + w) == NameAfterSavepoint(lex, w)
  {
    NextBehind(lex, [' '] + w);
    assert ([' '] + w)[1..] == w;
  }

  // A keyword and a blank in front of a text: one token, one word.
  lemma Keyword(lex: Lexicon, kw: string, w: string)
    requires Identifier(kw) && Lowered(kw) == kw
    ensures Next(lex, kw + ([' '] + w)) == Some(Lexed(Word(kw), [' '] + w))
    ensures Words(kw + ([' '] + w), 0, "") == [kw] + Words(w, 0, "")
  {
    IdentifierNext(lex, kw, [' '] + w);
    FirstWord(kw, [' '] + w);
    DividerSkipped(' ', w);
  }

  lemma Keywords()
    ensures Identifier("savepoint") && Identifier("rollback") && Identifier("release") && Identifier("to")
    ensures Lowered("savepoint") == "savepoint" && Lowered("rollback") == "rollback"
    ensures Lowered("to") == "to" && Lowered("release") == "release"
  {}

  lemma {:induction false} NoToken(lex: Lexicon, s: string)
    requires forall k :: 0 <= k < |s| ==> Divides(s[k])
    ensures Next(lex, s) == Some(Lexed(End, "")) || (s != "" && Next(lex, s).Some? && Next(lex, s).value.token == Other)
    decreases |s|
  {
    if s != "" {
      assert Divides(s[0]);
      if Blank(s[0]) {
        NextBehind(lex, s);
        NoToken(lex, s[1..]);
      } else {
        NextAt(lex, s);
      }
    }
  }

  lemma {:induction false} SomeWord(s: string, i: nat, cur: string)
    requires i <= |s| && (cur != "" || exists k :: i <= k < |s| && !Divides(s[k]))
    ensures Words(s, i, cur) != []
    decreases |s| - i
  {
    if i < |s| {
      if Divides(s[i]) {
        if cur == "" { SomeWord(s, i + 1, ""); }
      } else {
        SomeWord(s, i + 1, cur + [s[i]]);
      }
    }
  }

  lemma NamedHasWord(lex: Lexicon, w: string)
    requires NameIn(lex, w).Some?
    ensures Words(w, 0, "") != [] && Words(w, 0, "")[0] == KeyOf(w)
  {
    if exists k :: 0 <= k < |w| && !Divides(w[k]) {
      SomeWord(w, 0, "");
    } else {
      NoToken(lex, w);
    }
  }

  lemma KindMark(words: seq<string>)
    requires words != []
    ensures KindOf(["savepoint"] + words) == Some(Savepoint(words[0]))
  {}

  lemma AfterSavepoint(lex: Lexicon, w: string)
    ensures Read(lex, "savepoint" + ([' '] + w)) == Named(NameIn(lex, w), n => Saves(n))
    ensures Kind("savepoint" + ([' '] + w)) == KindOf(["savepoint"] + Words(w, 0, ""))
  {
    Keywords();
    Keyword(lex, "savepoint", w);
    NameBehind(lex, w);
  }

  /** `SAVEPOINT w`: the engine's name and the buffer's key, ... */
  lemma KeyOfSavepoint(lex: Lexicon, w: string)
    requires NameIn(lex, w).Some?
    ensures Read(lex, Text(MakeSave(w))) == Some(Saves(NameOf(lex, w)))
    ensures Kind(Text(MakeSave(w))) == Some(Savepoint(KeyOf(w)))
  {
    NamedHasWord(lex, w);
    AfterSavepoint(lex, w);
    KindMark(Words(w, 0, ""));
  }

  lemma SavepointFirst(lex: Lexicon, w: string)
    ensures NameAfterSavepoint(lex, "savepoint" + ([' '] + w)) == NameIn(lex, w)
    ensures Words("savepoint" + ([' '] + w), 0, "") == ["savepoint"] + Words(w, 0, "")
  {
    Keywords();
    Keyword(lex, "savepoint", w);
    NameBehind(lex, w);
  }

  lemma AfterTo(lex: Lexicon, w: string)
    ensures RollsBack(lex, [' '] + ("to" + ([' '] + w))) == Named(NameAfterSavepoint(lex, w), n => Returns(n))
    ensures Words("to" + ([' '] + w), 0, "") == ["to"] + Words(w, 0, "")
  {
    var to := "to" + ([' '] + w);
    Keywords();
    NextBehind(lex, [' '] + to);
    assert ([' '] + to)[1..] == to;
    Keyword(lex, "to", w);
    NameBehind(lex, w);
  }

  lemma AfterRollback(lex: Lexicon, w: string)
    ensures Read(lex, "rollback" + ([' '] + w)) == RollsBack(lex, [' '] + w)
    ensures Kind("rollback" + ([' '] + w)) == KindOf(["rollback"] + Words(w, 0, ""))
  {
    Keywords();
    Keyword(lex, "rollback", w);
  }

  lemma KindBack(words: seq<string>)
    requires words != []
    ensures KindOf(["rollback"] + (["to"] + (["savepoint"] + words))) == Some(RollbackTo(words[0]))
  {
    assert ["rollback"] + (["to"] + (["savepoint"] + words)) == ["rollback", "to", "savepoint"] + words;
  }

  lemma RollbackRead(lex: Lexicon, w: string)
    ensures Read(lex, Text(BackTo(w))) == Named(NameIn(lex, w), n => Returns(n))
    ensures Kind(Text(BackTo(w))) == KindOf(["rollback"] + (["to"] + (["savepoint"] + Words(w, 0, ""))))
  {
    var named := "savepoint" + ([' '] + w);
    SavepointFirst(lex, w);
    AfterTo(lex, named);
    AfterRollback(lex, "to" + ([' '] + named));
  }

  /** ... those of `ROLLBACK TO SAVEPOINT w`, ... */
  lemma KeyOfRollback(lex: Lexicon, w: string)
    requires NameIn(lex, w).Some?
    ensures Read(lex, Text(BackTo(w))) == Some(Returns(NameOf(lex, w)))
    ensures Kind(Text(BackTo(w))) == Some(RollbackTo(KeyOf(w)))
  {
    NamedHasWord(lex, w);
    RollbackRead(lex, w);
    KindBack(Words(w, 0, ""));
  }

  lemma KindShortBack(words: seq<string>)
    requires words != [] && words[0] != "savepoint"
    ensures KindOf(["rollback"] + (["to"] + words)) == Some(RollbackTo(words[0]))
  {
    assert ["rollback"] + (["to"] + words) == ["rollback", "to"] + words;
  }

  lemma ShortName(lex: Lexicon, w: string)
    requires NameIn(lex, w).Some? && Next(lex, w).value.token != Word("savepoint")
    ensures NameAfterSavepoint(lex, w) == Some(NameOf(lex, w))
  {}

  /** ... and those of `ROLLBACK TO w`, unless the word is the keyword itself. */
  lemma KeyOfShortRollback(lex: Lexicon, w: string)
    requires NameIn(lex, w).Some? && Next(lex, w).value.token != Word("savepoint") && KeyOf(w) != "savepoint"
    ensures Read(lex, "rollback" + ([' '] + ("to" + ([' '] + w)))) == Some(Returns(NameOf(lex, w)))
    ensures Kind("rollback" + ([' '] + ("to" + ([' '] + w)))) == Some(RollbackTo(KeyOf(w)))
  {
    ShortName(lex, w);
    NamedHasWord(lex, w);
    KindShortBack(Words(w, 0, ""));
    AfterTo(lex, w);
    AfterRollback(lex, "to" + ([' '] + w));
  }

  lemma AfterRelease(lex: Lexicon, w: string)
    ensures Read(lex, "release" + ([' '] + w)) == Named(NameAfterSavepoint(lex, w), n => Releases(n))
    ensures Kind("release" + ([' '] + w)) == Some(Release)
  {
    Keywords();
    Keyword(lex, "release", w);
    NameBehind(lex, w);
  }

  lemma KeyOfRelease(lex: Lexicon, w: string)
    requires NameIn(lex, w).Some?
    ensures Read(lex, Text(Drop(w))) == Some(Releases(NameOf(lex, w)))
    ensures Kind(Text(Drop(w))) == Some(Release)
  {
    SavepointFirst(lex, w);
    AfterRelease(lex, "savepoint" + ([' '] + w));
  }

  /** The buffer takes, on the text of a statement, the step the refinement is about. */
  lemma SessionTakesStep(lex: Lexicon, b: Buffer, op: Op)
    requires if op.Run? then Kind(op.stmt) == None else NameIn(lex, op.at).Some?
    ensures After(Some(b), Kind(Text(op)), Text(op), true) == Some(BufferStep(SourceNaming(lex), b, op))
  {
    match op
    case Run(_) =>
    case MakeSave(at) => KeyOfSavepoint(lex, at);
    case BackTo(at) => KeyOfRollback(lex, at);
    case Drop(at) => KeyOfRelease(lex, at);
  }

  // --- Which spellings are safe together ---

  /** A bare name: an identifier that is not reserved. */
  predicate Bare(lex: Lexicon, w: string) {
    Identifier(w) && Lowered(w) !in lex.reserved
  }

  lemma BareName(lex: Lexicon, w: string)
    requires Bare(lex, w)
    ensures NameIn(lex, w) == Some(Lowered(w)) && KeyOf(w) == Lowered(w)
  {
    assert w + "" == w;
    IdentifierNext(lex, w, "");
    FirstWord(w, "");
  }

  // A name that some bare spelling has.
  predicate BareIn(lex: Lexicon, name: string) {
    Bare(lex, name) && Lowered(name) == name
  }

  lemma LoweredBare(lex: Lexicon, w: string)
    requires Bare(lex, w)
    ensures BareIn(lex, Lowered(w))
  {
    LoweredTwice(w);
  }

  /** Coherence of a set that has one name per key with others beside it. */
  lemma CoherentBeside(nm: Naming, bare: iset<string>, names: iset<string>, others: iset<string>)
    requires forall w | w in bare :: nm.name(w) == nm.key(w) && nm.name(w) in names
    requires forall n | n in names :: n in bare && nm.name(n) == n
    ensures Coherent(nm, bare + others) <==>
      Coherent(nm, others) && forall w | w in others :: nm.name(w) in names || nm.key(w) in names ==> nm.name(w) == nm.key(w)
  {
    if Coherent(nm, bare + others) {
      forall w | w in others && (nm.name(w) in names || nm.key(w) in names) ensures nm.name(w) == nm.key(w) {
        var a := if nm.name(w) in names then nm.name(w) else nm.key(w);
        assert a in bare + others && w in bare + others;
      }
    }
  }

  lemma SourceNames(lex: Lexicon, w: string)
    ensures SourceNaming(lex).name(w) == NameOf(lex, w) && SourceNaming(lex).key(w) == KeyOf(w)
  {}

  /** The spellings that the engine takes as a name. */
  ghost function AcceptedNames(lex: Lexicon, words: iset<string>): iset<string> {
    iset w | w in words && NameIn(lex, w).Some?
  }

  /**
   * All bare names and any other accepted spellings beside them: the buffer follows over every run
   * if and only if the others are told apart alike, and each of them that meets a bare name on one
   * side has that name on both.
   */
  lemma NamesFollowIff(lex: Lexicon, words: iset<string>)
    ensures var others := AcceptedNames(lex, words);
      Follows(SourceNaming(lex), (iset w | Bare(lex, w)) + others) <==>
      && Coherent(SourceNaming(lex), others)
      && forall w | w in others :: BareIn(lex, NameOf(lex, w)) || BareIn(lex, KeyOf(w)) ==> NameOf(lex, w) == KeyOf(w)
  {
    var nm, bare, names := SourceNaming(lex), iset w | Bare(lex, w), iset w | BareIn(lex, w);
    var others := AcceptedNames(lex, words);
    forall w ensures nm.name(w) == NameOf(lex, w) && nm.key(w) == KeyOf(w) {
      SourceNames(lex, w);
    }
    forall w | w in bare ensures nm.name(w) == nm.key(w) && nm.name(w) in names {
      BareName(lex, w);
      LoweredBare(lex, w);
    }
    forall n | n in names ensures n in bare && nm.name(n) == n {
      BareName(lex, n);
    }
    FollowsIffCoherent(nm, bare + others);
    CoherentBeside(nm, bare, names, others);
  }

  /** Bare names alone are safe. */
  lemma BareNamesFollow(lex: Lexicon)
    ensures Follows(SourceNaming(lex), iset w | Bare(lex, w))
  {
    NamesFollowIff(lex, iset{});
    assert (iset w | Bare(lex, w)) + AcceptedNames(lex, iset{}) == iset w | Bare(lex, w);
  }

  lemma SameNameBreaks(lex: Lexicon, used: iset<string>, a: string, b: string)
    requires a in used && b in used && (NameOf(lex, a) == NameOf(lex, b)) != (KeyOf(a) == KeyOf(b))
    ensures !Follows(SourceNaming(lex), used)
  {
    var nm := SourceNaming(lex);
    assert nm.name(a) == NameOf(lex, a) && nm.name(b) == NameOf(lex, b);
    assert nm.key(a) == KeyOf(a) && nm.key(b) == KeyOf(b);
    FollowsIffCoherent(nm, used);
  }

  // A text without a divider is its own key.
  lemma KeyOfWord(w: string)
    requires OneWord(w)
    ensures KeyOf(w) == Lowered(w)
  {
    assert w + "" == w;
    FirstWord(w, "");
  }

  /** The engine drops the schema, the key keeps it. */
  lemma SchemaName(lex: Lexicon, schema: string, w: string)
    requires Bare(lex, schema) && Bare(lex, w)
    ensures NameIn(lex, schema + ("." + w)) == Some(Lowered(w))
  {
    var dotted := "." + w;
    IdentifierNext(lex, schema, dotted);
    NextAt(lex, dotted);
    assert dotted[1..] == w && w + "" == w;
    IdentifierNext(lex, w, "");
  }

  lemma SchemaKey(lex: Lexicon, schema: string, w: string)
    requires Bare(lex, schema) && Bare(lex, w)
    ensures KeyOf(schema + ("." + w)) == Lowered(schema + ("." + w))
  {
    KeyOfWord(schema + ("." + w));
  }

  /** A schema in front of a name that is also used without: one savepoint, two keys. */
  lemma SchemaBreaks(lex: Lexicon, used: iset<string>, schema: string, w: string)
    requires Bare(lex, schema) && Bare(lex, w) && w in used && schema + ("." + w) in used
    ensures !Follows(SourceNaming(lex), used)
  {
    BareName(lex, w);
    SchemaName(lex, schema, w);
    SchemaKey(lex, schema, w);
    SameNameBreaks(lex, used, w, schema + ("." + w));
  }

  // Text in which no white space or semicolon ends a word.
  predicate Solid(s: string) {
    forall k :: 0 <= k < |s| ==> !Divides(s[k])
  }

  lemma {:induction false} NoLineFeed(s: string, j: nat)
    requires j <= |s| && Solid(s)
    ensures LineEnd(s, j) == |s|
    decreases |s| - j
  {
    if j < |s| { NoLineFeed(s, j + 1); }
  }

  lemma CommentEnds(lex: Lexicon, s: string)
    requires Solid(s) && StartsWith(s, "--")
    ensures Next(lex, s) == Some(Lexed(End, ""))
  {
    NoLineFeed(s, 2);
    assert s[|s|..] == "" && Skip(lex, "") == Some("");
    assert Skip(lex, s) == Skip(lex, s[LineEnd(s, 2)..]);
  }

  /** The engine drops a line comment written against the name, the key keeps it. */
  lemma GluedName(lex: Lexicon, w: string, note: string)
    requires Bare(lex, w) && Solid(note)
    ensures NameIn(lex, w + ("--" + note)) == Some(Lowered(w))
    ensures KeyOf(w + ("--" + note)) == Lowered(w + ("--" + note))
  {
    var comment := "--" + note;
    IdentifierNext(lex, w, comment);
    CommentEnds(lex, comment);
    KeyOfWord(w + comment);
  }

  lemma GluedCommentBreaks(lex: Lexicon, used: iset<string>, w: string, note: string)
    requires Bare(lex, w) && Solid(note) && w in used && w + ("--" + note) in used
    ensures !Follows(SourceNaming(lex), used)
  {
    BareName(lex, w);
    GluedName(lex, w, note);
    SameNameBreaks(lex, used, w, w + ("--" + note));
  }

  // --- Quoted names ---

  predicate Quotable(q: string) {
    Solid(q) && forall k :: 0 <= k < |q| ==> q[k] != '"' && q[k] as int != 0
  }

  function InQuotes(q: string): string {
    ['"'] + (q + ['"'])
  }

  lemma {:induction false} QuotedRun(q: string, i: nat, name: string)
    requires Quotable(q) && i <= |q|
    ensures QuotedFrom(q[i..] + ['"'], '"', name) == Some(Lexed(Quoted(name + q[i..]), ""))
    decreases |q| - i
  {
    var s := q[i..] + ['"'];
    if i < |q| {
      assert s[1..] == q[i + 1..] + ['"'];
      QuotedRun(q, i + 1, name + [q[i]]);
      assert (name + [q[i]]) + q[i + 1..] == name + q[i..];
    } else {
      assert s == ['"'] && s[1..] == "" && name + q[i..] == name;
    }
  }

  /** A quoted name is kept as written by the engine, and keyed with its quotes, lower-cased, by the buffer. */
  lemma QuotedName(lex: Lexicon, q: string)
    requires Quotable(q)
    ensures NameIn(lex, InQuotes(q)) == Some(q) && KeyOf(InQuotes(q)) == InQuotes(Lowered(q))
  {
    var s := InQuotes(q);
    assert s[1..] == q[0..] + ['"'];
    assert "" + q[0..] == q;
    QuotedRun(q, 0, "");
    NextAt(lex, s);
    assert s + "" == s;
    FirstWord(s, "");
    assert Lowered(s) == InQuotes(Lowered(q));
  }

  /** A quoted spelling beside its bare one: one savepoint, two keys. */
  lemma AliasBreaks(lex: Lexicon, used: iset<string>, bare: string)
    requires Bare(lex, bare) && bare in used && InQuotes(Lowered(bare)) in used
    ensures !Follows(SourceNaming(lex), used)
  {
    BareName(lex, bare);
    QuotedName(lex, Lowered(bare));
    SameNameBreaks(lex, used, bare, InQuotes(Lowered(bare)));
  }

  /** Two quoted spellings that differ only in case: two savepoints, one key. */
  lemma CaseBreaks(lex: Lexicon, used: iset<string>, a: string, b: string)
    requires Quotable(a) && Quotable(b) && a != b && Lowered(a) == Lowered(b)
    requires InQuotes(a) in used && InQuotes(b) in used
    ensures !Follows(SourceNaming(lex), used)
  {
    QuotedName(lex, a);
    QuotedName(lex, b);
    SameNameBreaks(lex, used, InQuotes(a), InQuotes(b));
  }
}
