/**
 * Reading a predicate's bounds on a BRIN column: the walk over its AND-chain,
 * three-valued evaluation, and exactly when the bounds hold of matching rows.
 */
module Brin {
  import opened Wrappers

  // ---------------------------------------------------------------- values and expressions

  /** `Other` stands for the types without a BRIN scalar. */
  datatype Value =
    | Null
    | Bool(b: bool)
    | SmallInt(n: int)
    | Int(n: int)
    | BigInt(n: int)
    | Timestamp(micros: int)
    | Date(days: int)
    | Other(tag: int)

  function Scalar(v: Value): Option<int> {
    match v
    case Bool(b) => Some(if b then 1 else 0)
    case SmallInt(n) => Some(n)
    case Int(n) => Some(n)
    case BigInt(n) => Some(n)
    case Timestamp(t) => Some(t)
    case Date(d) => Some(d)
    case Null => None
    case Other(_) => None
  }

  datatype Op = And | Or | Eq | NotEq | Lt | LtEq | Gt | GtEq | Arith

  datatype Expr =
    | Literal(value: Value)
    | Column(qualifier: Option<string>, name: string)
    | Binary(lhs: Expr, op: Op, rhs: Expr)
    | Opaque(id: nat)

  // ---------------------------------------------------------------- evaluation

  const DAY := 86_400_000_000

  /** The numbers a comparison orders by; a date meets a timestamp as its midnight. */
  function Ordered(a: Value, b: Value): Option<(int, int)> {
    match (a, b)
    case (Bool(_), Bool(_)) => Some((Scalar(a).value, Scalar(b).value))
    case (Date(d), Timestamp(t)) => Some((d * DAY, t))
    case (Timestamp(t), Date(d)) => Some((t, d * DAY))
    case (Date(x), Date(y)) => Some((x, y))
    case (Timestamp(x), Timestamp(y)) => Some((x, y))
    case _ => if Integral(a) && Integral(b) then Some((a.n, b.n)) else None
  }

  predicate Integral(v: Value) {
    v.SmallInt? || v.Int? || v.BigInt?
  }

  predicate Compares(op: Op) {
    op != And && op != Or && op != Arith
  }

  predicate Holds(op: Op, x: int, y: int)
    requires Compares(op)
  {
    match op
    case Eq => x == y
    case NotEq => x != y
    case Lt => x < y
    case LtEq => x <= y
    case Gt => x > y
    case GtEq => x >= y
  }

  datatype Outcome = Val(value: Value) | Fault

  const TRUE := Val(Bool(true))
  const FALSE := Val(Bool(false))

  /** A row: its columns, and whatever the parts of the language left abstract evaluate to. */
  datatype Row = Row(
    column: (Option<string>, string) -> Value,
    opaqueAt: nat -> Outcome,
    compared: (Op, Value, Value) -> Outcome)

  function Compared(row: Row, op: Op, a: Value, b: Value): Outcome
    requires Compares(op)
  {
    if a.Null? || b.Null? then Val(Null)
    else if Ordered(a, b).Some? then Val(Bool(Holds(op, Ordered(a, b).value.0, Ordered(a, b).value.1)))
    else if Scalar(a).Some? && Scalar(b).Some? then Fault
    else row.compared(op, a, b)
  }

  function Conjoined(a: Outcome, b: Outcome): Outcome {
    if a == FALSE then FALSE
    else if a == Fault || b == Fault then Fault
    else if b == FALSE then FALSE
    else if a == TRUE && b == TRUE then TRUE
    else Val(Null)
  }

  function Disjoined(a: Outcome, b: Outcome): Outcome {
    if a == TRUE then TRUE
    else if a == Fault || b == Fault then Fault
    else if b == TRUE then TRUE
    else if a == FALSE && b == FALSE then FALSE
    else Val(Null)
  }

  function Eval(row: Row, e: Expr): Outcome {
    match e
    case Literal(v) => Val(v)
    case Column(q, name) => Val(row.column(q, name))
    case Opaque(id) => row.opaqueAt(id)
    case Binary(lhs, op, rhs) =>
      var a, b := Eval(row, lhs), Eval(row, rhs);
      if op == And then Conjoined(a, b)
      else if op == Or then Disjoined(a, b)
      else if a == Fault || b == Fault then Fault
      else if op == Arith then row.compared(op, a.value, b.value)
      else Compared(row, op, a.value, b.value)
  }

  // ---------------------------------------------------------------- the bounds

  datatype Bounds = Bounds(lo: Option<int>, hi: Option<int>)

  const ANY := Bounds(None, None)

  function Flip(op: Op): Op {
    match op
    case Lt => Gt
    case LtEq => GtEq
    case Gt => Lt
    case GtEq => LtEq
    case _ => op
  }

  /** The comparison with the column on the left, if it is one with a literal. */
  function Normalise(lhs: Expr, op: Op, rhs: Expr, col: string): Option<(Op, Value)> {
    if lhs.Column? && lhs.name == col then (if rhs.Literal? then Some((op, rhs.value)) else None)
    else if rhs.Column? && rhs.name == col then (if lhs.Literal? then Some((Flip(op), lhs.value)) else None)
    else None
  }

  function BoundOf(op: Op, k: int): Bounds {
    match op
    case Gt => Bounds(Some(k), None)
    case GtEq => Bounds(Some(k), None)
    case Lt => Bounds(None, Some(k))
    case LtEq => Bounds(None, Some(k))
    case Eq => Bounds(Some(k), Some(k))
    case _ => ANY
  }

  function Tighter(a: Bounds, b: Bounds): Bounds {
    Bounds(
      if a.lo.None? then b.lo else if b.lo.None? then a.lo else if a.lo.value >= b.lo.value then a.lo else b.lo,
      if a.hi.None? then b.hi else if b.hi.None? then a.hi else if a.hi.value <= b.hi.value then a.hi else b.hi)
  }

  /** The tightest bounds an AND-chain puts on a column, whatever order it is read in. */
  function BoundsOn(e: Expr, col: string): Bounds {
    match e
    case Binary(lhs, And, rhs) => Tighter(BoundsOn(lhs, col), BoundsOn(rhs, col))
    case Binary(lhs, op, rhs) =>
      var c := Normalise(lhs, op, rhs, col);
      if c.Some? && Scalar(c.value.1).Some? then BoundOf(c.value.0, Scalar(c.value.1).value) else ANY
    case _ => ANY
  }

  function AllBounds(stack: seq<Expr>, col: string): Bounds {
    if stack == [] then ANY
    else Tighter(AllBounds(stack[..|stack| - 1], col), BoundsOn(stack[|stack| - 1], col))
  }

  function Size(e: Expr): nat {
    if e.Binary? then 1 + Size(e.lhs) + Size(e.rhs) else 1
  }

  function TotalSize(stack: seq<Expr>): nat {
    if stack == [] then 0 else TotalSize(stack[..|stack| - 1]) + Size(stack[|stack| - 1])
  }

  lemma Push(stack: seq<Expr>, e: Expr, col: string)
    ensures AllBounds(stack + [e], col) == Tighter(AllBounds(stack, col), BoundsOn(e, col))
    ensures TotalSize(stack + [e]) == TotalSize(stack) + Size(e)
  {
    assert (stack + [e])[..|stack|] == stack;
  }

  lemma Regroup(acc: Bounds, a: Bounds, b: Bounds, c: Bounds)
    ensures Tighter(acc, Tighter(a, Tighter(b, c))) == Tighter(acc, Tighter(Tighter(a, b), c))
    ensures Tighter(acc, Tighter(a, c)) == Tighter(Tighter(acc, c), a)
  {}

  /** One comparison narrows the bounds read so far. */
  method Narrow(op: Op, k: int, lo: Option<int>, hi: Option<int>) returns (lo': Option<int>, hi': Option<int>)
    ensures Bounds(lo', hi') == Tighter(Bounds(lo, hi), BoundOf(op, k))
  {
    lo', hi' := lo, hi;
    if op == Gt || op == GtEq || op == Eq {
      lo' := Some(if lo.None? || lo.value < k then k else lo.value);
    }
    if op == Lt || op == LtEq || op == Eq {
      hi' := Some(if hi.None? || hi.value > k then k else hi.value);
    }
  }

  /** The walk over an explicit stack. */
  method ReadBounds(e: Expr, col: string) returns (lo: Option<int>, hi: Option<int>)
    ensures Bounds(lo, hi) == BoundsOn(e, col)
  {
    lo, hi := None, None;
    var stack := [e];
    Push([], e, col);
    assert [] + [e] == stack;
    while stack != []
      invariant Tighter(Bounds(lo, hi), AllBounds(stack, col)) == BoundsOn(e, col)
      decreases TotalSize(stack)
    {
      var cur := stack[|stack| - 1];
      var rest := stack[..|stack| - 1];
      assert stack == rest + [cur];
      Push(rest, cur, col);
      Regroup(Bounds(lo, hi), AllBounds(rest, col), ANY, BoundsOn(cur, col));
      stack := rest;
      if cur.Binary? && cur.op == And {
        Push(rest, cur.lhs, col);
        Push(rest + [cur.lhs], cur.rhs, col);
        Regroup(Bounds(lo, hi), AllBounds(rest, col), BoundsOn(cur.lhs, col), BoundsOn(cur.rhs, col));
        stack := rest + [cur.lhs] + [cur.rhs];
      } else if cur.Binary? {
        var c := Normalise(cur.lhs, cur.op, cur.rhs, col);
        if c.Some? && Scalar(c.value.1).Some? {
          lo, hi := Narrow(c.value.0, Scalar(c.value.1).value, lo, hi);
        }
      }
    }
  }

  // ---------------------------------------------------------------- soundness

  predicate Admits(b: Bounds, k: int) {
    (b.lo.Some? ==> b.lo.value <= k) && (b.hi.Some? ==> k <= b.hi.value)
  }

  datatype Kind = Days | Micros | Plain

  function KindOf(v: Value): Kind {
    if v.Date? then Days else if v.Timestamp? then Micros else Plain
  }

  /**
   * Whether the raw scalar of a literal bounds a column of a kind as the
   * comparison does. Only a date against a timestamp can fail.
   */
  predicate Faithful(kind: Kind, op: Op, lit: Value) {
    if kind == Days && lit.Timestamp? then
      match op
      case Gt => lit.micros <= 1
      case GtEq => lit.micros <= 1
      case Lt => lit.micros >= -1
      case LtEq => lit.micros >= -1
      case Eq => lit.micros == 0 || lit.micros % DAY != 0
      case _ => true
    else if kind == Micros && lit.Date? then
      match op
      case Gt => lit.days >= 0
      case GtEq => lit.days >= 0
      case Lt => lit.days <= 0
      case LtEq => lit.days <= 0
      case Eq => lit.days == 0
      case _ => true
    else true
  }

  predicate Matches(op: Op, v: Value, lit: Value) {
    Compares(op) && Ordered(v, lit).Some? && Holds(op, Ordered(v, lit).value.0, Ordered(v, lit).value.1)
  }

  /** Every matching value of the kind lies within the bound taken from the literal. */
  ghost predicate SoundBound(kind: Kind, op: Op, lit: Value) {
    forall v | KindOf(v) == kind && Scalar(v).Some? && Matches(op, v, lit) ::
      Admits(BoundOf(op, Scalar(lit).value), Scalar(v).value)
  }

  lemma FaithfulAdmits(op: Op, v: Value, lit: Value)
    requires Scalar(v).Some? && Scalar(lit).Some? && Matches(op, v, lit) && Faithful(KindOf(v), op, lit)
    ensures Admits(BoundOf(op, Scalar(lit).value), Scalar(v).value)
  {}

  // A date beside a timestamp that matches and falls outside the bound.
  lemma DateEscapes(op: Op, lit: Value) returns (v: Value)
    requires lit.Timestamp? && !Faithful(Days, op, lit)
    ensures v.Date? && Matches(op, v, lit) && !Admits(BoundOf(op, Scalar(lit).value), Scalar(v).value)
  {
    var t := lit.micros;
    if op == Gt || op == GtEq {
      v := Date(t / DAY + 1);
    } else if op == Eq {
      v := Date(t / DAY);
    } else {
      v := Date((t - 1) / DAY);
    }
  }

  lemma StampEscapes(op: Op, lit: Value) returns (v: Value)
    requires lit.Date? && !Faithful(Micros, op, lit)
    ensures v.Timestamp? && Matches(op, v, lit) && !Admits(BoundOf(op, Scalar(lit).value), Scalar(v).value)
  {
    var t := lit.days * DAY;
    v := Timestamp(if op == Gt then t + 1 else if op == Lt then t - 1 else t);
  }

  /** A literal bounds a column soundly if and only if it is faithful to the column's kind. */
  lemma SoundIffFaithful(kind: Kind, op: Op, lit: Value)
    requires Scalar(lit).Some?
    ensures SoundBound(kind, op, lit) <==> Faithful(kind, op, lit)
  {
    if Faithful(kind, op, lit) {
      forall v | KindOf(v) == kind && Scalar(v).Some? && Matches(op, v, lit)
        ensures Admits(BoundOf(op, Scalar(lit).value), Scalar(v).value)
      {
        FaithfulAdmits(op, v, lit);
      }
    } else if kind == Days {
      var v := DateEscapes(op, lit);
    } else {
      var v := StampEscapes(op, lit);
    }
  }

  /** Every literal the walk takes a bound from is faithful to the column's kind. */
  predicate AllFaithful(kind: Kind, e: Expr, col: string) {
    match e
    case Binary(lhs, And, rhs) => AllFaithful(kind, lhs, col) && AllFaithful(kind, rhs, col)
    case Binary(lhs, op, rhs) =>
      var c := Normalise(lhs, op, rhs, col);
      c.Some? && Scalar(c.value.1).Some? ==> Faithful(kind, c.value.0, c.value.1)
    case _ => true
  }

  /** Every comparison the walk takes a bound from is with this very column, whose value is `v`. */
  predicate ComparesThis(row: Row, e: Expr, col: string, v: Value) {
    match e
    case Binary(lhs, And, rhs) => ComparesThis(row, lhs, col, v) && ComparesThis(row, rhs, col, v)
    case Binary(lhs, op, rhs) =>
      Normalise(lhs, op, rhs, col).Some? ==>
        row.column(if lhs.Column? && lhs.name == col then lhs.qualifier else rhs.qualifier, col) == v
    case _ => true
  }

  lemma ConjunctMatches(row: Row, lhs: Expr, op: Op, rhs: Expr, col: string, v: Value)
    requires op != And && Eval(row, Binary(lhs, op, rhs)) == TRUE
    requires ComparesThis(row, Binary(lhs, op, rhs), col, v) && Scalar(v).Some?
    requires Normalise(lhs, op, rhs, col).Some?
    requires var c := Normalise(lhs, op, rhs, col).value;
             Scalar(c.1).Some? && BoundOf(c.0, Scalar(c.1).value) != ANY
    ensures var c := Normalise(lhs, op, rhs, col).value;
            Matches(c.0, v, c.1)
  {
  }

  /** A row on which the predicate is TRUE has its scalar within the bounds. */
  lemma {:induction false} BoundsAreSound(row: Row, e: Expr, col: string, v: Value)
    requires Eval(row, e) == TRUE && Scalar(v).Some?
    requires ComparesThis(row, e, col, v) && AllFaithful(KindOf(v), e, col)
    ensures Admits(BoundsOn(e, col), Scalar(v).value)
  {
    if e.Binary? && e.op == And {
      BoundsAreSound(row, e.lhs, col, v);
      BoundsAreSound(row, e.rhs, col, v);
    } else if e.Binary? && BoundsOn(e, col) != ANY {
      ConjunctMatches(row, e.lhs, e.op, e.rhs, col, v);
      var c := Normalise(e.lhs, e.op, e.rhs, col).value;
      FaithfulAdmits(c.0, v, c.1);
    }
  }

  // ---------------------------------------------------------------- columns matched by name

  /** `q.col op lit` */
  function Comparison(q: Option<string>, col: string, op: Op, lit: Value): Expr {
    Binary(Column(q, col), op, Literal(lit))
  }

  /** Whatever a comparison with a column of that name finds TRUE bounds the value `v`. */
  ghost predicate StandsFor(row: Row, q: Option<string>, col: string, v: Value)
    requires Scalar(v).Some?
  {
    forall op, lit :: Eval(row, Comparison(q, col, op, lit)) == TRUE ==>
      Admits(BoundsOn(Comparison(q, col, op, lit), col), Scalar(v).value)
  }

  lemma SameNumberBounds(row: Row, q: Option<string>, col: string, v: Value, op: Op, lit: Value)
    requires Integral(row.column(q, col)) && Integral(v) && row.column(q, col).n == v.n
    requires Eval(row, Comparison(q, col, op, lit)) == TRUE
    ensures Admits(BoundsOn(Comparison(q, col, op, lit), col), v.n)
  {
  }

  /**
   * The walk matches a column by its name alone. A column `q.col` of another relation, holding a
   * number, bounds this relation's number `v` soundly if and only if the two numbers are equal.
   */
  lemma NameBoundsIff(row: Row, q: Option<string>, col: string, v: Value)
    requires Integral(row.column(q, col)) && Integral(v)
    ensures StandsFor(row, q, col, v) <==> row.column(q, col).n == v.n
  {
    var u := row.column(q, col);
    if u.n == v.n {
      forall op, lit | Eval(row, Comparison(q, col, op, lit)) == TRUE
        ensures Admits(BoundsOn(Comparison(q, col, op, lit), col), Scalar(v).value)
      {
        SameNumberBounds(row, q, col, v, op, lit);
      }
    } else {
      assert Eval(row, Comparison(q, col, Eq, BigInt(u.n))) == TRUE;
    }
  }
}
