/**
 * Truncating to a mark against restoring a copy. The engine names a savepoint
 * by its identifier, the buffer by the lower-cased word of the statement text.
 * The buffer follows the engine over every run exactly when the two namings
 * tell the same savepoints apart.
 */
module TxRefinement {
  import opened SqlText
  import opened TxBuffer
  import opened Wrappers

  // --- The engine: a copy per savepoint ---

  /** How a spelled savepoint is named on each side. */
  datatype Naming = Naming(name: string -> string, key: string -> string)

  datatype Save<V> = Save(at: string, copy: V)

  /** The state in force, and the copies taken at the live savepoints. */
  datatype Engine<V> = Engine(live: V, saves: seq<Save<V>>)

  // The state a copy-keeping buffer would hold: the statements themselves.
  type Listing = seq<string>

  datatype Op = Run(stmt: string) | MakeSave(at: string) | BackTo(at: string) | Drop(at: string)

  function Others<V>(nm: Naming, saves: seq<Save<V>>, at: string): seq<Save<V>> {
    if saves == [] then []
    else if nm.name(saves[0].at) == nm.name(at) then Others(nm, saves[1..], at)
    else [saves[0]] + Others(nm, saves[1..], at)
  }

  // The last live savepoint of that name; the length when there is none.
  function LastOf<V>(nm: Naming, saves: seq<Save<V>>, at: string): (p: nat)
    ensures p <= |saves| && (p < |saves| ==> nm.name(saves[p].at) == nm.name(at))
  {
    if saves == [] then 0
    else if nm.name(saves[|saves| - 1].at) == nm.name(at) then |saves| - 1
    else
      var p := LastOf(nm, saves[..|saves| - 1], at);
      if p == |saves| - 1 then |saves| else p
  }

  predicate Accepts<V>(nm: Naming, e: Engine<V>, op: Op) {
    (op.BackTo? || op.Drop?) ==> LastOf(nm, e.saves, op.at) < |e.saves|
  }

  function Append(list: Listing, stmt: string): Listing {
    list + [stmt]
  }

  /** `apply` is what running a statement does to the state. */
  function EngineStep<V>(nm: Naming, apply: (V, string) -> V, e: Engine<V>, op: Op): Engine<V>
    requires Accepts(nm, e, op)
  {
    match op
    case Run(stmt) => e.(live := apply(e.live, stmt))
    case MakeSave(at) => e.(saves := Others(nm, e.saves, at) + [Save(at, e.live)])
    case BackTo(at) =>
      var p := LastOf(nm, e.saves, at);
      Engine(e.saves[p].copy, e.saves[..p + 1])
    case Drop(at) => e.(saves := e.saves[..LastOf(nm, e.saves, at)])
  }

  function BufferStep(nm: Naming, b: Buffer, op: Op): Buffer {
    match op
    case Run(stmt) => b.(statements := b.statements + [stmt])
    case MakeSave(at) => Mark(b, nm.key(at))
    case BackTo(at) => RollBack(b, nm.key(at))
    case Drop(_) => b
  }

  datatype Pair = Pair(e: Engine<Listing>, b: Buffer)

  /** A run from BEGIN. A statement the engine refuses reaches neither side. */
  function Both(nm: Naming, ops: seq<Op>): Pair {
    if ops == [] then Pair(Engine([], []), EMPTY)
    else
      var s := Both(nm, ops[..|ops| - 1]);
      var op := ops[|ops| - 1];
      if Accepts(nm, s.e, op) then Pair(EngineStep(nm, Append, s.e, op), BufferStep(nm, s.b, op)) else s
  }

  // --- Subsequences of marks ---

  predicate Sub(a: seq<(string, nat)>, b: seq<(string, nat)>)
    decreases |b|
  {
    a == [] || (b != [] && (if a[0] == b[0] then Sub(a[1..], b[1..]) else Sub(a, b[1..])))
  }

  predicate Sorted(b: seq<(string, nat)>, top: nat) {
    && (forall i, j :: 0 <= i <= j < |b| ==> b[i].1 <= b[j].1)
    && (forall i :: 0 <= i < |b| ==> b[i].1 <= top)
  }

  predicate Distinct(b: seq<(string, nat)>) {
    forall i, j :: 0 <= i < j < |b| ==> b[i].0 != b[j].0
  }

  lemma {:induction false} SubTail(a: seq<(string, nat)>, b: seq<(string, nat)>)
    requires a != [] && Sub(a, b)
    ensures Sub(a[1..], b)
    decreases |b|, 0
  {
    if a[0] == b[0] {
      SubCons(a[1..], b[1..], b[0]);
      assert [b[0]] + b[1..] == b;
    } else {
      SubTail(a, b[1..]);
      SubCons(a[1..], b[1..], b[0]);
      assert [b[0]] + b[1..] == b;
    }
  }

  lemma {:induction false} SubCons(a: seq<(string, nat)>, b: seq<(string, nat)>, x: (string, nat))
    requires Sub(a, b)
    ensures Sub(a, [x] + b)
    decreases |b|, 1
  {
    assert ([x] + b)[1..] == b;
    if a != [] && a[0] == x {
      SubTail(a, b);
    }
  }

  lemma {:induction false} SubPush(a: seq<(string, nat)>, b: seq<(string, nat)>, x: (string, nat))
    requires Sub(a, b)
    ensures Sub(a + [x], b + [x])
    decreases |b|
  {
    if b == [] {
      assert a + [x] == [x] && b + [x] == [x];
      assert Sub([x][1..], [x][1..]);
    } else if a == [] {
      assert (b + [x])[1..] == b[1..] + [x];
      SubPush(a, b[1..], x);
      assert a + [x] == [x];
      if x == b[0] {
        assert [x][1..] == [];
      }
    } else {
      assert (b + [x])[1..] == b[1..] + [x];
      if a[0] == b[0] {
        assert (a + [x])[1..] == a[1..] + [x];
        SubPush(a[1..], b[1..], x);
      } else {
        SubPush(a, b[1..], x);
      }
    }
  }

  lemma {:induction false} SubWithout(a: seq<(string, nat)>, b: seq<(string, nat)>, key: string)
    requires Sub(a, b)
    ensures Sub(Without(a, key), Without(b, key))
    decreases |b|
  {
    if a != [] {
      if a[0] == b[0] {
        SubWithout(a[1..], b[1..], key);
        if a[0].0 != key {
          assert Without(a, key)[1..] == Without(a[1..], key);
          assert Without(b, key)[1..] == Without(b[1..], key);
        }
      } else {
        SubWithout(a, b[1..], key);
        SubCons(Without(a, key), Without(b[1..], key), b[0]);
      }
    }
  }

  lemma {:induction false} SubMember(a: seq<(string, nat)>, b: seq<(string, nat)>, i: nat)
    requires Sub(a, b) && i < |a|
    ensures a[i] in b
    decreases |b|
  {
    if a[0] == b[0] {
      if i > 0 { SubMember(a[1..], b[1..], i - 1); }
    } else {
      SubMember(a, b[1..], i);
    }
  }

  lemma {:induction false} SubPrefix(a: seq<(string, nat)>, b: seq<(string, nat)>, p: nat)
    requires Sub(a, b) && p <= |a|
    ensures Sub(a[..p], b)
    decreases |b|
  {
    if p > 0 {
      if a[0] == b[0] {
        SubPrefix(a[1..], b[1..], p - 1);
        assert a[..p][1..] == a[1..][..p - 1];
      } else {
        SubPrefix(a, b[1..], p);
      }
    }
  }

  /** Cutting both lists after the entry under one key keeps the relation, and the entries agree. */
  lemma {:induction false} SubCut(a: seq<(string, nat)>, b: seq<(string, nat)>, p: nat, q: nat)
    requires Sub(a, b) && Distinct(b) && p < |a| && q < |b| && a[p].0 == b[q].0
    ensures a[p] == b[q] && Sub(a[..p + 1], b[..q + 1])
    decreases |b|
  {
    if a[0] == b[0] {
      if p == 0 {
        assert q == 0;
        assert a[..1][1..] == [];
      } else {
        SubMember(a[1..], b[1..], p - 1);
        SubCut(a[1..], b[1..], p - 1, q - 1);
        assert a[..p + 1][1..] == a[1..][..p];
        assert b[..q + 1][1..] == b[1..][..q];
      }
    } else {
      SubMember(a, b[1..], p);
      SubCut(a, b[1..], p, q - 1);
      assert b[..q + 1][1..] == b[1..][..q];
    }
  }

  lemma {:induction false} SubSorted(a: seq<(string, nat)>, b: seq<(string, nat)>, top: nat)
    requires Sub(a, b) && Sorted(b, top)
    ensures Sorted(a, top)
    decreases |b|
  {
    if a != [] {
      assert Sorted(b[1..], top);
      if a[0] == b[0] {
        SubSorted(a[1..], b[1..], top);
        forall j | 0 < j < |a| ensures a[0].1 <= a[j].1 {
          SubMember(a[1..], b[1..], j - 1);
          assert a[j] == a[1..][j - 1];
        }
        assert forall i :: 0 < i < |a| ==> a[i] == a[1..][i - 1];
      } else {
        SubSorted(a, b[1..], top);
      }
    }
  }

  lemma {:induction false} WithoutSub(b: seq<(string, nat)>, key: string)
    ensures Sub(Without(b, key), b)
  {
    if b != [] {
      WithoutSub(b[1..], key);
      var r := Without(b[1..], key);
      if b[0].0 == key {
        SubCons(r, b[1..], b[0]);
        assert [b[0]] + b[1..] == b;
      } else {
        assert ([b[0]] + r)[1..] == r;
      }
    }
  }

  lemma {:induction false} WithoutDistinct(b: seq<(string, nat)>, key: string)
    requires Distinct(b)
    ensures Distinct(Without(b, key))
  {
    if b != [] {
      WithoutDistinct(b[1..], key);
      var r := Without(b[1..], key);
      forall j | 0 <= j < |r| ensures r[j].0 != b[0].0 {
        assert r[j] in b[1..];
      }
    }
  }

  // --- The relation ---

  function MarkOf(nm: Naming, save: Save<Listing>): (string, nat) {
    (nm.key(save.at), |save.copy|)
  }

  function Image(nm: Naming, saves: seq<Save<Listing>>): (r: seq<(string, nat)>)
    ensures |r| == |saves|
    ensures forall i :: 0 <= i < |saves| ==> r[i] == MarkOf(nm, saves[i])
  {
    seq(|saves|, i requires 0 <= i < |saves| => MarkOf(nm, saves[i]))
  }

  predicate Prefixes(saves: seq<Save<Listing>>, live: seq<string>) {
    forall i :: 0 <= i < |saves| ==> |saves[i].copy| <= |live| && saves[i].copy == live[..|saves[i].copy|]
  }

  /**
   * The live savepoints are, in order, among the marks; every copy is the
   * prefix its mark gives. Marks that RELEASE left behind may stand between.
   */
  ghost predicate Related(nm: Naming, s: Pair) {
    && s.b.statements == s.e.live
    && Distinct(s.b.savepoints)
    && Sorted(s.b.savepoints, |s.b.statements|)
    && Sub(Image(nm, s.e.saves), s.b.savepoints)
    && Prefixes(s.e.saves, s.e.live)
  }

  ghost predicate Coherent(nm: Naming, used: iset<string>) {
    forall a, b | a in used && b in used :: nm.name(a) == nm.name(b) <==> nm.key(a) == nm.key(b)
  }

  predicate Spelled(saves: seq<Save<Listing>>, used: iset<string>) {
    forall i :: 0 <= i < |saves| ==> saves[i].at in used
  }

  lemma ImageCons(nm: Naming, x: Save<Listing>, saves: seq<Save<Listing>>)
    ensures Image(nm, [x] + saves) == [MarkOf(nm, x)] + Image(nm, saves)
  {}

  lemma WithoutCons(x: (string, nat), marks: seq<(string, nat)>, key: string)
    ensures Without([x] + marks, key) == if x.0 == key then Without(marks, key) else [x] + Without(marks, key)
  {
    assert ([x] + marks)[1..] == marks;
  }

  lemma {:induction false} OthersKeep(nm: Naming, saves: seq<Save<Listing>>, at: string)
    ensures forall x :: x in Others(nm, saves, at) ==> x in saves
  {
    if saves != [] { OthersKeep(nm, saves[1..], at); }
  }

  lemma {:induction false} OthersImage(nm: Naming, saves: seq<Save<Listing>>, at: string, used: iset<string>)
    requires Coherent(nm, used) && Spelled(saves, used) && at in used
    ensures Image(nm, Others(nm, saves, at)) == Without(Image(nm, saves), nm.key(at))
  {
    if saves != [] {
      var x, rest := saves[0], saves[1..];
      OthersImage(nm, rest, at, used);
      assert saves == [x] + rest;
      ImageCons(nm, x, rest);
      WithoutCons(MarkOf(nm, x), Image(nm, rest), nm.key(at));
      assert x.at in used;
      ImageCons(nm, x, Others(nm, rest, at));
    }
  }

  lemma SortedPush(b: seq<(string, nat)>, top: nat, key: string)
    requires Sorted(b, top)
    ensures Sorted(b + [(key, top)], top)
  {}

  // The buffer's side of a savepoint.
  lemma MarksKept(marks: seq<(string, nat)>, key: string, n: nat)
    requires Distinct(marks) && Sorted(marks, n)
    ensures Distinct(Without(marks, key) + [(key, n)]) && Sorted(Without(marks, key) + [(key, n)], n)
  {
    WithoutSub(marks, key);
    SubSorted(Without(marks, key), marks, n);
    SortedPush(Without(marks, key), n, key);
    WithoutDistinct(marks, key);
  }

  lemma PrefixesKept(nm: Naming, e: Engine<Listing>, at: string, used: iset<string>)
    requires Prefixes(e.saves, e.live) && Spelled(e.saves, used) && at in used
    ensures var saves := Others(nm, e.saves, at) + [Save(at, e.live)];
            Prefixes(saves, e.live) && Spelled(saves, used)
  {
    var kept := Others(nm, e.saves, at);
    OthersKeep(nm, e.saves, at);
    forall i | 0 <= i < |kept|
      ensures kept[i].at in used && |kept[i].copy| <= |e.live| && kept[i].copy == e.live[..|kept[i].copy|]
    {
      assert kept[i] in e.saves;
    }
  }

  lemma KeepsSave(nm: Naming, s: Pair, at: string, used: iset<string>)
    requires Related(nm, s) && Coherent(nm, used) && Spelled(s.e.saves, used) && at in used
    ensures Related(nm, Pair(EngineStep(nm, Append, s.e, MakeSave(at)), BufferStep(nm, s.b, MakeSave(at))))
    ensures Spelled(EngineStep(nm, Append, s.e, MakeSave(at)).saves, used)
  {
    var key, n := nm.key(at), |s.b.statements|;
    var kept, marks := Others(nm, s.e.saves, at), Without(s.b.savepoints, key);
    OthersImage(nm, s.e.saves, at, used);
    SubWithout(Image(nm, s.e.saves), s.b.savepoints, key);
    SubPush(Image(nm, kept), marks, (key, n));
    assert Image(nm, kept + [Save(at, s.e.live)]) == Image(nm, kept) + [(key, n)];
    MarksKept(s.b.savepoints, key, n);
    PrefixesKept(nm, s.e, at, used);
  }

  lemma KeepsBack(nm: Naming, s: Pair, at: string, used: iset<string>)
    requires Related(nm, s) && Coherent(nm, used) && Spelled(s.e.saves, used) && at in used
    requires Accepts(nm, s.e, BackTo(at))
    ensures Related(nm, Pair(EngineStep(nm, Append, s.e, BackTo(at)), BufferStep(nm, s.b, BackTo(at))))
  {
    var p, a := LastOf(nm, s.e.saves, at), Image(nm, s.e.saves);
    var marks, key := s.b.savepoints, nm.key(at);
    SubMember(a, marks, p);
    assert a[p].0 == key;
    var q := Position(marks, key);
    SubCut(a, marks, p, q);
    assert Image(nm, s.e.saves[..p + 1]) == a[..p + 1];
    SubSorted(a, marks, |s.b.statements|);
    var copy := s.e.saves[p].copy;
    forall i | 0 <= i <= p
      ensures |s.e.saves[i].copy| <= |copy| && s.e.saves[i].copy == copy[..|s.e.saves[i].copy|]
    {
      assert a[i].1 <= a[p].1;
    }
  }

  lemma KeepsDrop(nm: Naming, s: Pair, at: string)
    requires Related(nm, s) && Accepts(nm, s.e, Drop(at))
    ensures Related(nm, Pair(EngineStep(nm, Append, s.e, Drop(at)), s.b))
  {
    var p := LastOf(nm, s.e.saves, at);
    SubPrefix(Image(nm, s.e.saves), s.b.savepoints, p);
    assert Image(nm, s.e.saves[..p]) == Image(nm, s.e.saves)[..p];
  }

  // RELEASE may be spelled in any way: it only removes a savepoint of the engine.
  predicate Over(ops: seq<Op>, used: iset<string>) {
    forall i :: 0 <= i < |ops| ==> ops[i].Run? || ops[i].Drop? || ops[i].at in used
  }

  lemma {:induction false} RunRelated(nm: Naming, ops: seq<Op>, used: iset<string>)
    requires Coherent(nm, used) && Over(ops, used)
    ensures Related(nm, Both(nm, ops)) && Spelled(Both(nm, ops).e.saves, used)
  {
    if ops != [] {
      var s, op := Both(nm, ops[..|ops| - 1]), ops[|ops| - 1];
      RunRelated(nm, ops[..|ops| - 1], used);
      assert op == ops[|ops| - 1];
      if Accepts(nm, s.e, op) {
        match op
        case Run(_) =>
        case MakeSave(at) => KeepsSave(nm, s, at, used);
        case BackTo(at) => KeepsBack(nm, s, at, used);
        case Drop(at) => KeepsDrop(nm, s, at);
      }
    }
  }

  // --- Where the namings disagree ---

  lemma StepOf(nm: Naming, ops: seq<Op>, op: Op)
    ensures var s := Both(nm, ops);
            Both(nm, ops + [op]) ==
            if Accepts(nm, s.e, op) then Pair(EngineStep(nm, Append, s.e, op), BufferStep(nm, s.b, op)) else s
  {
    assert (ops + [op])[..|ops + [op]| - 1] == ops;
  }

  lemma OneSave(nm: Naming, a: string, stmt: string)
    ensures Both(nm, [MakeSave(a)] + [Run(stmt)]) == Pair(Engine([stmt], [Save(a, [])]), Buffer([stmt], [(nm.key(a), 0)]))
  {
    StepOf(nm, [], MakeSave(a));
    assert [] + [MakeSave(a)] == [MakeSave(a)];
    assert Both(nm, [MakeSave(a)]) == Pair(Engine([], [Save(a, [])]), Buffer([], [(nm.key(a), 0)]));
    StepOf(nm, [MakeSave(a)], Run(stmt));
    assert Append([], stmt) == [stmt];
  }

  // Two spellings of one savepoint: the buffer does not find its mark.
  lemma AliasDiverges(nm: Naming, a: string, b: string, stmt: string)
    requires nm.name(a) == nm.name(b) && nm.key(a) != nm.key(b)
    ensures var s := Both(nm, [MakeSave(a)] + [Run(stmt)] + [BackTo(b)]);
            s.e.live == [] && s.b.statements == [stmt]
  {
    OneSave(nm, a, stmt);
    StepOf(nm, [MakeSave(a)] + [Run(stmt)], BackTo(b));
  }

  lemma TwoSaves(nm: Naming, a: string, b: string, stmt: string)
    requires nm.name(a) != nm.name(b) && nm.key(a) == nm.key(b)
    ensures Both(nm, [MakeSave(a)] + [Run(stmt)] + [MakeSave(b)])
         == Pair(Engine([stmt], [Save(a, []), Save(b, [stmt])]), Buffer([stmt], [(nm.key(a), 1)]))
  {
    OneSave(nm, a, stmt);
    StepOf(nm, [MakeSave(a)] + [Run(stmt)], MakeSave(b));
    var first: seq<Save<Listing>> := [Save(a, [])];
    assert Others(nm, first, b) == first by { assert first[1..] == []; }
    assert Without([(nm.key(a), 0)], nm.key(b)) == [] by { assert [(nm.key(a), 0)][1..] == []; }
  }

  // One key for two savepoints: the second takes the mark of the first.
  lemma ClashDiverges(nm: Naming, a: string, b: string, stmt: string)
    requires nm.name(a) != nm.name(b) && nm.key(a) == nm.key(b)
    ensures var s := Both(nm, [MakeSave(a)] + [Run(stmt)] + [MakeSave(b)] + [BackTo(a)]);
            s.e.live == [] && s.b.statements == [stmt]
  {
    var two := [MakeSave(a)] + [Run(stmt)];
    TwoSaves(nm, a, b, stmt);
    var three := Both(nm, two + [MakeSave(b)]);
    var first: seq<Save<Listing>> := [Save(a, [])];
    StepOf(nm, two + [MakeSave(b)], BackTo(a));
    assert LastOf(nm, first, a) == 0;
    assert three.e.saves[..1] == first;
  }

  ghost predicate Follows(nm: Naming, used: iset<string>) {
    forall ops | Over(ops, used) :: Both(nm, ops).b.statements == Both(nm, ops).e.live
  }

  lemma CoherentFollows(nm: Naming, used: iset<string>)
    requires Coherent(nm, used)
    ensures Follows(nm, used)
  {
    forall ops | Over(ops, used) ensures Both(nm, ops).b.statements == Both(nm, ops).e.live {
      RunRelated(nm, ops, used);
    }
  }

  lemma IncoherentDiverges(nm: Naming, used: iset<string>, a: string, b: string) returns (ops: seq<Op>)
    requires a in used && b in used && (nm.name(a) == nm.name(b)) != (nm.key(a) == nm.key(b))
    ensures Over(ops, used) && Both(nm, ops).b.statements != Both(nm, ops).e.live
  {
    if nm.name(a) == nm.name(b) {
      AliasDiverges(nm, a, b, "x");
      ops := [MakeSave(a)] + [Run("x")] + [BackTo(b)];
    } else {
      ClashDiverges(nm, a, b, "x");
      ops := [MakeSave(a)] + [Run("x")] + [MakeSave(b)] + [BackTo(a)];
    }
  }

  /**
   * Over every run that spells its savepoints from `used`, the buffer holds
   * exactly the statements a full copy would restore, if and only if the two
   * namings tell the same spellings apart.
   */
  lemma FollowsIffCoherent(nm: Naming, used: iset<string>)
    ensures Follows(nm, used) <==> Coherent(nm, used)
  {
    if Coherent(nm, used) {
      CoherentFollows(nm, used);
    } else {
      var a, b :| a in used && b in used && !(nm.name(a) == nm.name(b) <==> nm.key(a) == nm.key(b));
      var ops := IncoherentDiverges(nm, used, a, b);
    }
  }
}
