/** Block summaries of a BRIN column, and the slots they cannot rule out. */
module BrinSlots {
  import opened Brin
  import opened Wrappers

  const RANGE_ROWS := 1024

  datatype Summary = Summary(min: int, max: int)

  // ---------------------------------------------------------------- summaries

  function Widened(s: Option<Summary>, k: int): Option<Summary> {
    match s
    case None => Some(Summary(k, k))
    case Some(r) => Some(Summary(if r.min <= k then r.min else k, if r.max >= k then r.max else k))
  }

  function Block(i: nat): nat {
    i / RANGE_ROWS
  }

  predicate Spans(s: Option<Summary>, k: int) {
    s.Some? && s.value.min <= k <= s.value.max
  }

  /** Every scalar of the first `n` values lies within the summary of its block. */
  predicate Covers(sums: seq<Option<Summary>>, values: seq<Value>, n: nat)
    requires n <= |values|
  {
    forall i :: 0 <= i < n && Scalar(values[i]).Some? ==>
      Block(i) < |sums| && Spans(sums[Block(i)], Scalar(values[i]).value)
  }

  // A value in some row of a block.
  predicate Attained(values: seq<Value>, n: nat, r: nat, k: int)
    requires n <= |values|
  {
    exists i :: 0 <= i < n && Block(i) == r && Scalar(values[i]) == Some(k)
  }

  /** Both ends of every summary are values of its block. */
  predicate Tight(sums: seq<Option<Summary>>, values: seq<Value>, n: nat)
    requires n <= |values|
  {
    forall r: nat :: r < |sums| && sums[r].Some? ==>
      Attained(values, n, r, sums[r].value.min) && Attained(values, n, r, sums[r].value.max)
  }

  lemma Widens(sums: seq<Option<Summary>>, values: seq<Value>, i: nat, k: int)
    requires i < |values| && Block(i) < |sums| && Scalar(values[i]) == Some(k)
    requires Covers(sums, values, i) && Tight(sums, values, i)
    ensures var sums' := sums[Block(i) := Widened(sums[Block(i)], k)];
            Covers(sums', values, i + 1) && Tight(sums', values, i + 1)
  {
    var r := Block(i);
    var sums' := sums[r := Widened(sums[r], k)];
    forall b: nat | b < |sums'| && sums'[b].Some?
      ensures Attained(values, i + 1, b, sums'[b].value.min) && Attained(values, i + 1, b, sums'[b].value.max)
    {
      assert b == r ==> Attained(values, i + 1, r, k);
      if sums[b].Some? {
        Later(values, i, b, sums[b].value.min);
        Later(values, i, b, sums[b].value.max);
      }
    }
  }

  lemma Later(values: seq<Value>, n: nat, r: nat, k: int)
    requires n < |values| && Attained(values, n, r, k)
    ensures Attained(values, n + 1, r, k)
  {}

  lemma Keeps(sums: seq<Option<Summary>>, values: seq<Value>, i: nat)
    requires i < |values| && Scalar(values[i]).None?
    requires Covers(sums, values, i) && Tight(sums, values, i)
    ensures Covers(sums, values, i + 1) && Tight(sums, values, i + 1)
  {
    forall b: nat | b < |sums| && sums[b].Some?
      ensures Attained(values, i + 1, b, sums[b].value.min) && Attained(values, i + 1, b, sums[b].value.max)
    {
      Later(values, i, b, sums[b].value.min);
      Later(values, i, b, sums[b].value.max);
    }
  }

  /** The summaries of a column that already has rows. */
  method SummariesFor(values: seq<Value>) returns (sums: seq<Option<Summary>>)
    ensures |sums| == (|values| + RANGE_ROWS - 1) / RANGE_ROWS
    ensures Covers(sums, values, |values|) && Tight(sums, values, |values|)
  {
    sums := seq((|values| + RANGE_ROWS - 1) / RANGE_ROWS, _ => None);
    for i := 0 to |values|
      invariant |sums| == (|values| + RANGE_ROWS - 1) / RANGE_ROWS
      invariant Covers(sums, values, i) && Tight(sums, values, i)
    {
      var k := Scalar(values[i]);
      if k.Some? {
        Widens(sums, values, i, k.value);
        sums := sums[Block(i) := Widened(sums[Block(i)], k.value)];
      } else {
        Keeps(sums, values, i);
      }
    }
  }

  /** An insert widens the summary of the block its row lands in. */
  method Insert(sums: seq<Option<Summary>>, values: seq<Value>, cell: Value) returns (sums': seq<Option<Summary>>)
    requires Covers(sums, values, |values|)
    ensures Covers(sums', values + [cell], |values| + 1)
  {
    var r := Block(|values|);
    sums' := sums;
    if |sums'| <= r {
      sums' := sums' + seq(r + 1 - |sums'|, _ => None);
    }
    var k := Scalar(cell);
    if k.Some? {
      sums' := sums'[r := Widened(sums'[r], k.value)];
    }
    assert forall i :: 0 <= i < |values| ==> (values + [cell])[i] == values[i];
  }

  // ---------------------------------------------------------------- slots

  datatype Slots = Slots(start: nat, end: nat)

  /** Whether the summary of a block fails to rule it out. */
  predicate Keep(sums: seq<Option<Summary>>, r: nat, b: Bounds) {
    r < |sums| && sums[r].Some? ==>
      !((b.lo.Some? && sums[r].value.max < b.lo.value) || (b.hi.Some? && sums[r].value.min > b.hi.value))
  }

  predicate Inside(out: seq<Slots>, i: nat) {
    exists j :: 0 <= j < |out| && out[j].start <= i < out[j].end
  }

  /** Ranges in ascending order, none empty, no two touching. */
  predicate Separate(out: seq<Slots>, limit: nat) {
    && (forall j :: 0 <= j < |out| ==> out[j].start < out[j].end <= limit)
    && (forall j :: 0 <= j < |out| - 1 ==> out[j].end < out[j + 1].start)
  }

  // Adding one kept block, which may extend the last range.
  function Add(out: seq<Slots>, start: nat, end: nat): seq<Slots> {
    if out != [] && out[|out| - 1].end == start
    then out[..|out| - 1] + [Slots(out[|out| - 1].start, end)]
    else out + [Slots(start, end)]
  }

  lemma AddSeparate(out: seq<Slots>, start: nat, end: nat)
    requires Separate(out, start) && start < end
    ensures Separate(Add(out, start, end), end)
  {}

  lemma AddKeeps(out: seq<Slots>, start: nat, end: nat, i: nat)
    requires Separate(out, start) && start < end && (Inside(out, i) || start <= i < end)
    ensures Inside(Add(out, start, end), i)
  {
    var out' := Add(out, start, end);
    if start <= i < end {
      assert out'[|out'| - 1].start <= i < out'[|out'| - 1].end;
    } else {
      var j :| 0 <= j < |out| && out[j].start <= i < out[j].end;
      assert out'[j].start <= i < out'[j].end;
    }
  }

  lemma AddOnly(out: seq<Slots>, start: nat, end: nat, i: nat)
    requires Separate(out, start) && start < end && Inside(Add(out, start, end), i)
    ensures Inside(out, i) || start <= i < end
  {
    var out' := Add(out, start, end);
    var j :| 0 <= j < |out'| && out'[j].start <= i < out'[j].end;
    if j < |out| { assert out[j].start == out'[j].start; }
  }

  lemma AddInside(out: seq<Slots>, start: nat, end: nat, i: nat)
    requires Separate(out, start) && start < end
    ensures Inside(Add(out, start, end), i) <==> Inside(out, i) || start <= i < end
  {
    if Inside(out, i) || start <= i < end { AddKeeps(out, start, end, i); }
    if Inside(Add(out, start, end), i) { AddOnly(out, start, end, i); }
  }

  /** The slots of a table of `n` rows that the summaries do not rule out: exactly the rows of kept blocks. */
  method CandidateSlots(sums: seq<Option<Summary>>, n: nat, b: Bounds) returns (out: seq<Slots>)
    ensures Separate(out, n)
    ensures forall i: nat :: Inside(out, i) <==> i < n && Keep(sums, Block(i), b)
  {
    out := [];
    var start: nat := 0;
    while start < n
      invariant start <= n && (start == n || start % RANGE_ROWS == 0)
      invariant Separate(out, start)
      invariant forall i: nat :: Inside(out, i) <==> i < start && Keep(sums, Block(i), b)
    {
      var end := if start + RANGE_ROWS <= n then start + RANGE_ROWS else n;
      SameBlock(start, end);
      if Keep(sums, Block(start), b) {
        forall i: nat
          ensures Inside(Add(out, start, end), i) <==> i < end && Keep(sums, Block(i), b)
        {
          AddInside(out, start, end, i);
        }
        AddSeparate(out, start, end);
        out := Add(out, start, end);
      }
      start := end;
    }
  }

  lemma SameBlock(start: nat, end: nat)
    requires start % RANGE_ROWS == 0 && end <= start + RANGE_ROWS
    ensures forall i: nat :: start <= i < end ==> Block(i) == Block(start)
  {}

  // ---------------------------------------------------------------- no match is pruned

  /**
   * A column of one kind with covering summaries: a row on which the predicate
   * is TRUE is among the candidate slots, or the walk found no bound at all.
   */
  lemma NoMatchPruned(values: seq<Value>, sums: seq<Option<Summary>>, rows: seq<Row>, e: Expr, col: string, i: nat)
    requires i < |values| == |rows| && Covers(sums, values, |values|)
    requires Eval(rows[i], e) == TRUE && ComparesThis(rows[i], e, col, values[i])
    requires AllFaithful(KindOf(values[i]), e, col)
    requires values[i].Other? && Block(i) < |sums| ==> sums[Block(i)].None?
    ensures Keep(sums, Block(i), BoundsOn(e, col))
  {
    if Scalar(values[i]).Some? {
      BoundsAreSound(rows[i], e, col, values[i]);
    } else if values[i].Null? {
      NullMeansNoBound(rows[i], e, col);
    }
  }

  // Comparing NULL is never TRUE, so a matching row with a NULL leaves no bound.
  lemma {:induction false} NullMeansNoBound(row: Row, e: Expr, col: string)
    requires Eval(row, e) == TRUE && ComparesThis(row, e, col, Null)
    ensures BoundsOn(e, col) == ANY
  {
    if e.Binary? && e.op == And {
      NullMeansNoBound(row, e.lhs, col);
      NullMeansNoBound(row, e.rhs, col);
    } else if e.Binary? {
      assert Normalise(e.lhs, e.op, e.rhs, col).Some? ==> BoundsOn(e, col) == ANY;
    }
  }

  /** A DATE column against a timestamp literal: the only block, which holds a match, is ruled out. */
  lemma CrossKindLosesRow(row: Row)
    requires row.column(None, "d") == Date(1)
    ensures var e := Binary(Column(None, "d"), GtEq, Literal(Timestamp(DAY)));
            Eval(row, e) == TRUE && !Keep([Some(Summary(1, 1))], 0, BoundsOn(e, "d"))
  {}
}
