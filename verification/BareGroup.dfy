/**
 * The rewrite of a bare GROUP BY into a DISTINCT: its gate, and the proof that
 * a statement that passes it means the same in both spellings.
 */
module BareGroup {
  import SqlText
  import opened Wrappers

  datatype Expr =
    | Integer(n: int)
    | Column(name: string)
    | Call(fn: string, args: seq<Expr>)
    | Node(op: string, args: seq<Expr>)   // operators, casts, CASE, arrays, ...
    | OrderedAggregate(call: Expr)
    | Window(fn: string, args: seq<Expr>)
    | Leaf(text: string)                  // other literals, placeholders, subqueries

  datatype Item = Star | TableStar(table: string) | Shown(expr: Expr)

  datatype Select = Select(
    items: seq<Item>, groupBy: Option<seq<Expr>>, groupByAll: bool, having: Option<Expr>,
    distinct: bool, distinctOn: seq<Expr>, orderBy: seq<Expr>)

  // ---------------------------------------------------------------- the gate

  predicate IsOrdinal(e: Expr) {
    e.Integer?
  }

  /** `aggregates` holds the aggregate names in lower case. */
  predicate HasAggregate(aggregates: set<string>, e: Expr) {
    match e
    case Call(fn, args) =>
      SqlText.Lowered(fn) in aggregates || exists i :: 0 <= i < |args| && HasAggregate(aggregates, args[i])
    case Node(_, args) => exists i :: 0 <= i < |args| && HasAggregate(aggregates, args[i])
    case OrderedAggregate(_) => true
    case _ => false
  }

  predicate HasWindow(e: Expr) {
    match e
    case Call(_, args) => exists i :: 0 <= i < |args| && HasWindow(args[i])
    case Node(_, args) => exists i :: 0 <= i < |args| && HasWindow(args[i])
    case OrderedAggregate(call) => HasWindow(call)
    case Window(_, _) => true
    case _ => false
  }

  predicate UsesAggregate(aggregates: set<string>, s: Select) {
    || (exists i :: 0 <= i < |s.items| && s.items[i].Shown? && HasAggregate(aggregates, s.items[i].expr))
    || (exists i :: 0 <= i < |s.orderBy| && HasAggregate(aggregates, s.orderBy[i]))
    || (s.having.Some? && HasAggregate(aggregates, s.having.value))
  }

  /** The select list, when every item is an expression without a window function. */
  predicate Plain(items: seq<Item>) {
    forall i :: 0 <= i < |items| ==> items[i].Shown? && !HasWindow(items[i].expr)
  }

  function Projected(items: seq<Item>): (es: seq<Expr>)
    requires forall i :: 0 <= i < |items| ==> items[i].Shown?
    ensures |es| == |items| && forall i :: 0 <= i < |items| ==> es[i] == items[i].expr
  {
    if items == [] then [] else [items[0].expr] + Projected(items[1..])
  }

  predicate Within(es: seq<Expr>, keys: seq<Expr>) {
    forall i :: 0 <= i < |es| ==> es[i] in keys
  }

  /** When the rewrite applies. */
  predicate Gate(aggregates: set<string>, s: Select) {
    && s.groupBy.Some? && s.groupBy.value != []
    && !s.groupByAll && s.having.None? && !s.distinct && s.distinctOn == []
    && (forall i :: 0 <= i < |s.groupBy.value| ==> !IsOrdinal(s.groupBy.value[i]))
    && !UsesAggregate(aggregates, s)
    && Plain(s.items)
    && Within(Projected(s.items), s.groupBy.value)
    && Within(s.groupBy.value, Projected(s.items))
    && (forall i :: 0 <= i < |s.orderBy| ==> IsOrdinal(s.orderBy[i]) || s.orderBy[i] in s.groupBy.value)
  }

  /** The projected expressions, unless a wildcard or a window function is among them. */
  method Collect(items: seq<Item>) returns (r: Option<seq<Expr>>)
    ensures r.Some? <==> Plain(items)
    ensures r.Some? ==> r.value == Projected(items)
  {
    var projected: seq<Expr> := [];
    var n := 0;
    while n < |items|
      invariant 0 <= n <= |items| && Plain(items[..n])
      invariant projected == Projected(items[..n])
    {
      var item := items[n];
      if !item.Shown? || HasWindow(item.expr) {
        return None;
      }
      projected := projected + [item.expr];
      n := n + 1;
    }
    assert items[..n] == items;
    return Some(projected);
  }

  method AsDistinct(aggregates: set<string>, s: Select) returns (r: Option<Select>)
    ensures r.Some? <==> Gate(aggregates, s)
    ensures r.Some? ==> r.value == s.(groupBy := None, distinct := true)
  {
    if s.groupBy.None? {
      return None;
    }
    var keys := s.groupBy.value;
    if keys == [] || s.groupByAll || s.having.Some? || s.distinct || s.distinctOn != [] {
      return None;
    }
    if exists i :: 0 <= i < |keys| && IsOrdinal(keys[i]) {
      return None;
    }
    if UsesAggregate(aggregates, s) {
      return None;
    }
    var projected := Collect(s.items);
    if projected.None? {
      return None;
    }
    if !Within(projected.value, keys) || !Within(keys, projected.value) {
      return None;
    }
    if exists i :: 0 <= i < |s.orderBy| && !IsOrdinal(s.orderBy[i]) && s.orderBy[i] !in keys {
      return None;
    }
    return Some(s.(groupBy := None, distinct := true));
  }

  // ---------------------------------------------------------------- meaning

  /**
   * Deterministic evaluation over rows `R`; two values are the same to grouping
   * and to DISTINCT when their keys agree, as two NULLs do.
   */
  datatype Meaning<!R, !V, !K> = Meaning(eval: (Expr, R) -> V, key: V -> K)

  function Values<R, V, K>(m: Meaning<R, V, K>, es: seq<Expr>, row: R): (vs: seq<V>)
    ensures |vs| == |es| && forall i :: 0 <= i < |es| ==> vs[i] == m.eval(es[i], row)
  {
    if es == [] then [] else [m.eval(es[0], row)] + Values(m, es[1..], row)
  }

  function Keys<R, V, K>(m: Meaning<R, V, K>, vs: seq<V>): (ks: seq<K>)
    ensures |ks| == |vs| && forall i :: 0 <= i < |vs| ==> ks[i] == m.key(vs[i])
  {
    if vs == [] then [] else [m.key(vs[0])] + Keys(m, vs[1..])
  }

  function GroupKey<R, V, K>(m: Meaning<R, V, K>, keys: seq<Expr>, row: R): seq<K> {
    Keys(m, Values(m, keys, row))
  }

  /** The first row of each group whose key was not seen before. */
  function Groups<R, V, K(==)>(m: Meaning<R, V, K>, keys: seq<Expr>, rows: seq<R>, seen: set<seq<K>>): seq<R> {
    if rows == [] then []
    else
      var k := GroupKey(m, keys, rows[0]);
      if k in seen then Groups(m, keys, rows[1..], seen)
      else [rows[0]] + Groups(m, keys, rows[1..], seen + {k})
  }

  function Output<R, V, K>(m: Meaning<R, V, K>, es: seq<Expr>, rows: seq<R>): (out: seq<seq<V>>)
    ensures |out| == |rows| && forall i :: 0 <= i < |rows| ==> out[i] == Values(m, es, rows[i])
  {
    if rows == [] then [] else [Values(m, es, rows[0])] + Output(m, es, rows[1..])
  }

  /** Output rows without repeats, the first of each kind kept. */
  function Deduplicated<R, V, K(==)>(m: Meaning<R, V, K>, out: seq<seq<V>>, seen: set<seq<K>>): seq<seq<V>> {
    if out == [] then []
    else
      var k := Keys(m, out[0]);
      if k in seen then Deduplicated(m, out[1..], seen)
      else [out[0]] + Deduplicated(m, out[1..], seen + {k})
  }

  function GroupedResult<R, V, K(==)>(m: Meaning<R, V, K>, es: seq<Expr>, keys: seq<Expr>, rows: seq<R>): seq<seq<V>> {
    Output(m, es, Groups(m, keys, rows, {}))
  }

  function DistinctResult<R, V, K(==)>(m: Meaning<R, V, K>, es: seq<Expr>, rows: seq<R>): seq<seq<V>> {
    Deduplicated(m, Output(m, es, rows), {})
  }

  // ---------------------------------------------------------------- the equivalence

  /** Expressions drawn from others tell apart no rows the others do not. */
  lemma WithinAgrees<R, V, K>(m: Meaning<R, V, K>, es: seq<Expr>, keys: seq<Expr>, a: R, b: R)
    requires Within(es, keys) && GroupKey(m, keys, a) == GroupKey(m, keys, b)
    ensures GroupKey(m, es, a) == GroupKey(m, es, b)
  {
    forall i | 0 <= i < |es| ensures GroupKey(m, es, a)[i] == GroupKey(m, es, b)[i] {
      assert es[i] in keys;
      var j :| 0 <= j < |keys| && keys[j] == es[i];
      assert GroupKey(m, keys, a)[j] == GroupKey(m, keys, b)[j];
    }
  }

  // The rows already seen, told by their group key or by their output.
  ghost predicate Matched<R(!new), V, K>(m: Meaning<R, V, K>, es: seq<Expr>, keys: seq<Expr>, sg: set<seq<K>>, sd: set<seq<K>>) {
    forall r: R {:trigger GroupKey(m, keys, r)} {:trigger GroupKey(m, es, r)} ::
      GroupKey(m, keys, r) in sg <==> GroupKey(m, es, r) in sd
  }

  lemma MatchedAdd<R(!new), V, K>(m: Meaning<R, V, K>, es: seq<Expr>, keys: seq<Expr>, sg: set<seq<K>>, sd: set<seq<K>>, row: R)
    requires Within(es, keys) && Within(keys, es) && Matched(m, es, keys, sg, sd)
    ensures Matched(m, es, keys, sg + {GroupKey(m, keys, row)}, sd + {GroupKey(m, es, row)})
  {
    forall r: R
      ensures GroupKey(m, keys, r) == GroupKey(m, keys, row) <==> GroupKey(m, es, r) == GroupKey(m, es, row)
    {
      if GroupKey(m, keys, r) == GroupKey(m, keys, row) { WithinAgrees(m, es, keys, r, row); }
      if GroupKey(m, es, r) == GroupKey(m, es, row) { WithinAgrees(m, keys, es, r, row); }
    }
  }

  lemma {:induction false} SameFrom<R(!new), V, K>(m: Meaning<R, V, K>, es: seq<Expr>, keys: seq<Expr>, rows: seq<R>,
                                             sg: set<seq<K>>, sd: set<seq<K>>)
    requires Within(es, keys) && Within(keys, es) && Matched(m, es, keys, sg, sd)
    ensures Output(m, es, Groups(m, keys, rows, sg)) == Deduplicated(m, Output(m, es, rows), sd)
    decreases |rows|
  {
    if rows != [] {
      var row, rest := rows[0], rows[1..];
      var k, d := GroupKey(m, keys, row), GroupKey(m, es, row);
      assert Output(m, es, rows)[1..] == Output(m, es, rest);
      if k in sg {
        SameFrom(m, es, keys, rest, sg, sd);
      } else {
        MatchedAdd(m, es, keys, sg, sd, row);
        SameFrom(m, es, keys, rest, sg + {k}, sd + {d});
        var groups := Groups(m, keys, rest, sg + {k});
        assert ([row] + groups)[1..] == groups;
      }
    }
  }

  /** Both spellings return the same rows in the same order, for every table and every meaning. */
  lemma RewriteKeepsMeaning<R(!new), V, K>(aggregates: set<string>, s: Select, m: Meaning<R, V, K>, rows: seq<R>)
    requires Gate(aggregates, s)
    ensures GroupedResult(m, Projected(s.items), s.groupBy.value, rows) == DistinctResult(m, Projected(s.items), rows)
  {
    SameFrom(m, Projected(s.items), s.groupBy.value, rows, {}, {});
  }

  /** No two rows of the result agree in every column. */
  lemma {:induction false} NoRepeats<R, V, K>(m: Meaning<R, V, K>, out: seq<seq<V>>, seen: set<seq<K>>, i: nat, j: nat)
    requires i < j < |Deduplicated(m, out, seen)|
    ensures Keys(m, Deduplicated(m, out, seen)[i]) != Keys(m, Deduplicated(m, out, seen)[j])
    decreases |out|
  {
    var k := Keys(m, out[0]);
    if k in seen {
      NoRepeats(m, out[1..], seen, i, j);
    } else if i > 0 {
      NoRepeats(m, out[1..], seen + {k}, i - 1, j - 1);
    } else {
      Unseen(m, out[1..], seen + {k}, j - 1);
    }
  }

  lemma {:induction false} Unseen<R, V, K>(m: Meaning<R, V, K>, out: seq<seq<V>>, seen: set<seq<K>>, j: nat)
    requires j < |Deduplicated(m, out, seen)|
    ensures Keys(m, Deduplicated(m, out, seen)[j]) !in seen
    decreases |out|
  {
    var k := Keys(m, out[0]);
    if k in seen {
      Unseen(m, out[1..], seen, j);
    } else if j > 0 {
      Unseen(m, out[1..], seen + {k}, j - 1);
    }
  }

  /** What an ORDER BY entry sorts by: a select-list position or a group key. */
  function SortKey(s: Select, o: Expr): Option<Expr>
    requires Plain(s.items)
  {
    if !IsOrdinal(o) then Some(o)
    else if 1 <= o.n <= |s.items| then Some(Projected(s.items)[o.n - 1])
    else None
  }

  /** Every sort key has one value per group, so either spelling can be sorted by it. */
  lemma SortKeysConstant<R, V, K>(aggregates: set<string>, s: Select, m: Meaning<R, V, K>, i: nat, a: R, b: R)
    requires Gate(aggregates, s) && i < |s.orderBy|
    requires GroupKey(m, s.groupBy.value, a) == GroupKey(m, s.groupBy.value, b)
    ensures var o := SortKey(s, s.orderBy[i]);
            o.Some? ==> m.key(m.eval(o.value, a)) == m.key(m.eval(o.value, b))
  {
    var o := SortKey(s, s.orderBy[i]);
    if o.Some? {
      assert o.value in s.groupBy.value;
      WithinAgrees(m, [o.value], s.groupBy.value, a, b);
      assert GroupKey(m, [o.value], a)[0] == GroupKey(m, [o.value], b)[0];
    }
  }

  // ---------------------------------------------------------------- the gate is exact

  // A meaning under which only one expression looks at the row.
  function Spotlight(e: Expr): Meaning<int, int, int> {
    Meaning((x: Expr, row: int) => if x == e then row else 0, (v: int) => v)
  }

  ghost predicate AlwaysSame(es: seq<Expr>, keys: seq<Expr>) {
    forall m: Meaning<int, int, int>, rows: seq<int> ::
      GroupedResult(m, es, keys, rows) == DistinctResult(m, es, rows)
  }

  /**
   * When only group keys are projected, the two spellings agree on all tables
   * if and only if every group key is projected.
   */
  lemma AllKeysNeeded(es: seq<Expr>, keys: seq<Expr>)
    requires Within(es, keys)
    ensures AlwaysSame(es, keys) <==> Within(keys, es)
  {
    if Within(keys, es) {
      forall m: Meaning<int, int, int>, rows: seq<int>
        ensures GroupedResult(m, es, keys, rows) == DistinctResult(m, es, rows)
      {
        SameFrom(m, es, keys, rows, {}, {});
      }
    } else {
      var j :| 0 <= j < |keys| && keys[j] !in es;
      Repeats(es, keys, j);
    }
  }

  // Two rows that differ only in the missing key: two groups, one distinct row.
  lemma Repeats(es: seq<Expr>, keys: seq<Expr>, j: nat)
    requires j < |keys| && keys[j] !in es
    ensures var m, rows := Spotlight(keys[j]), [0, 1];
            |GroupedResult(m, es, keys, rows)| == 2 && |DistinctResult(m, es, rows)| == 1
  {
    var m: Meaning<int, int, int>, rows: seq<int> := Spotlight(keys[j]), [0, 1];
    assert GroupKey(m, keys, 0)[j] != GroupKey(m, keys, 1)[j];
    var k := GroupKey(m, keys, 0);
    assert rows[1..] == [1] && [1][1..] == [];
    assert Groups(m, keys, [1], {k}) == [1];
    var none: set<seq<int>> := {};
    assert none + {k} == {k};
    assert Groups(m, keys, rows, none) == [0] + Groups(m, keys, [1], {k});
    assert Values(m, es, 0) == Values(m, es, 1);
    var out: seq<seq<int>> := Output(m, es, rows);
    var tail: seq<seq<int>> := out[1..];
    assert out[0] == out[1] && tail == [out[1]] && |tail[1..]| == 0;
    assert none + {Keys(m, out[0])} == {Keys(m, out[0])};
    assert Deduplicated(m, tail, {Keys(m, out[0])}) == [];
  }
}
