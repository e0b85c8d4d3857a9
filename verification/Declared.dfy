// What a list of builder calls asks for, and that the assembled program asks for exactly that.
module Declared {
  import opened Basics
  import opened Sums
  import opened Qps
  import opened QpMeaning

  predicate Scoped(d: Declaration, n: nat) {
    match d
    case Variable(_, _) => true
    case Linear(i, _) => i < n
    case Equal(terms, _) => Inside(terms, n)
    case AtMost(terms, _) => Inside(terms, n)
    case AtLeast(terms, _) => Inside(terms, n)
    case Squared(terms, _) => Inside(terms, n)
  }

  // Everything declared speaks about the first n variables.
  ghost predicate Fits(ds: seq<Declaration>, n: nat) {
    Sound(ds) && Variables(ds) <= n && forall d :: d in ds ==> Scoped(d, n)
  }

  ghost predicate WithinBounds(v: real, lo: Option<real>, hi: Option<real>) {
    (lo.Some? ==> lo.value <= v) && (hi.Some? ==> v <= hi.value)
  }

  // The point keeps to one call. i is the number the call's variable would get.
  ghost predicate Keeps(d: Declaration, i: nat, x: Point)
    requires Scoped(d, |x|) && (d.Variable? ==> i < |x|)
  {
    match d
    case Variable(lo, hi) => WithinBounds(x[i], lo, hi)
    case Linear(_, _) => true
    case Equal(terms, rhs) => Dot(terms, x) == rhs
    case AtMost(terms, rhs) => Dot(terms, x) <= rhs
    case AtLeast(terms, rhs) => Dot(terms, x) >= rhs
    case Squared(_, _) => true
  }

  lemma {:induction false} VariableBelow(ds: seq<Declaration>, k: nat)
    requires k < |ds|
    ensures Variables(ds[..k]) + (if ds[k].Variable? then 1 else 0) <= Variables(ds)
    decreases |ds|
  {
    var init := ds[..|ds| - 1];
    if k < |init| {
      assert init[..k] == ds[..k];
      VariableBelow(init, k);
    }
  }

  ghost predicate KeepsAt(ds: seq<Declaration>, k: nat, x: Point)
    requires Fits(ds, |x|) && k < |ds|
  {
    VariableBelow(ds, k);
    Keeps(ds[k], Variables(ds[..k]), x)
  }

  ghost predicate KeepsAll(ds: seq<Declaration>, x: Point)
    requires Fits(ds, |x|)
  {
    forall k :: 0 <= k < |ds| ==> KeepsAt(ds, k, x)
  }

  function CostOf(d: Declaration, x: Point): real
    requires Scoped(d, |x|)
  {
    match d
    case Variable(_, _) => 0.0
    case Linear(i, c) => Weighted(c, x[i])
    case Equal(_, _) => 0.0
    case AtMost(_, _) => 0.0
    case AtLeast(_, _) => 0.0
    case Squared(terms, w) => Weighted(w, Square(Dot(terms, x)))
  }

  function Costs(ds: seq<Declaration>, x: Point): seq<real>
    requires forall d :: d in ds ==> Scoped(d, |x|)
  {
    seq(|ds|, k requires 0 <= k < |ds| => (assert ds[k] in ds; CostOf(ds[k], x)))
  }

  // The sum of all declared costs and squares.
  function DeclaredCost(ds: seq<Declaration>, x: Point): real
    requires forall d :: d in ds ==> Scoped(d, |x|)
  {
    Sum(Costs(ds, x))
  }

  // ---------------------------------------------------------------- constraints

  ghost predicate Rowed(b: Problem, x: Point)
  {
    && (forall r :: r in b.eq ==> Inside(r.terms, |x|))
    && (forall r :: r in b.le ==> Inside(r.terms, |x|))
  }

  ghost predicate RowsHold(b: Problem, x: Point)
    requires Rowed(b, x)
  {
    && (forall r :: r in b.eq ==> Dot(r.terms, x) == r.rhs)
    && (forall r :: r in b.le ==> Dot(r.terms, x) <= r.rhs)
  }

  lemma DotOne(i: nat, c: real, x: Point)
    requires i < |x|
    ensures Inside([(i, c)], |x|) && Dot([(i, c)], x) == Term((i, c), x)
  {
    assert TermValues([(i, c)], x) == [Term((i, c), x)] + [];
    SumCons(Term((i, c), x), []);
  }

  lemma DotNegated(terms: Terms, x: Point)
    requires Inside(terms, |x|)
    ensures Inside(Negated(terms), |x|) && Dot(Negated(terms), x) == -Dot(terms, x)
  {
    var minus := Negated(terms);
    forall t | t in minus
      ensures t.0 < |x|
    {
      var k :| 0 <= k < |minus| && minus[k] == t;
      assert terms[k] in terms;
    }
    forall k | 0 <= k < |terms|
      ensures TermValues(minus, x)[k] == -1.0 * TermValues(terms, x)[k]
    {
      assert terms[k] in terms && minus[k] == (terms[k].0, -terms[k].1);
      NegatedTerm(terms[k].0, terms[k].1, x);
    }
    SumScaled(TermValues(terms, x), TermValues(minus, x), -1.0);
  }

  lemma NegatedTerm(i: nat, c: real, x: Point)
    requires i < |x|
    ensures Term((i, -c), x) == -1.0 * Term((i, c), x)
  {
  }

  // One call adds exactly its own constraint.
  lemma ApplyRows(b: Problem, d: Declaration, x: Point)
    requires Rowed(b, x) && Scoped(d, |x|) && b.n == |b.q|
    requires (d.Variable? ==> b.n < |x|) && (d.Linear? ==> d.i < |b.q|)
    ensures Rowed(Apply(b, d), x)
    ensures RowsHold(Apply(b, d), x) <==> RowsHold(b, x) && Keeps(d, b.n, x)
  {
    match d
    case Variable(lo, hi) =>
      DotOne(b.n, 1.0, x);
      DotOne(b.n, -1.0, x);
      BoundRowsHold(b.n, lo, hi, x);
      forall r | r in b.le + BoundRows(b.n, lo, hi)
        ensures Inside(r.terms, |x|)
      {
        assert r in b.le || r in BoundRows(b.n, lo, hi);
      }
      RowsConcat(b.le, BoundRows(b.n, lo, hi), x);
    case AtLeast(terms, rhs) =>
      DotNegated(terms, x);
      RowsConcat(b.le, [Row(Negated(terms), -rhs)], x);
    case Equal(terms, rhs) =>
    case AtMost(terms, rhs) =>
      RowsConcat(b.le, [Row(terms, rhs)], x);
    case Linear(_, _) =>
    case Squared(_, _) =>
  }

  ghost predicate LeHold(rows: seq<Row>, x: Point)
    requires forall r :: r in rows ==> Inside(r.terms, |x|)
  {
    forall r :: r in rows ==> Dot(r.terms, x) <= r.rhs
  }

  lemma RowsConcat(a: seq<Row>, b: seq<Row>, x: Point)
    requires forall r :: r in a ==> Inside(r.terms, |x|)
    requires forall r :: r in b ==> Inside(r.terms, |x|)
    ensures forall r :: r in a + b ==> Inside(r.terms, |x|)
    ensures LeHold(a + b, x) <==> LeHold(a, x) && LeHold(b, x)
  {
    assert forall r :: r in a + b <==> r in a || r in b;
  }

  lemma BoundRowsHold(i: nat, lo: Option<real>, hi: Option<real>, x: Point)
    requires i < |x|
    ensures forall r :: r in BoundRows(i, lo, hi) ==> Inside(r.terms, |x|)
    ensures LeHold(BoundRows(i, lo, hi), x) <==> WithinBounds(x[i], lo, hi)
  {
    DotOne(i, 1.0, x);
    DotOne(i, -1.0, x);
    var low := if lo.Some? then [Row([(i, -1.0)], -lo.value)] else [];
    var high := if hi.Some? then [Row([(i, 1.0)], hi.value)] else [];
    RowsConcat(low, high, x);
    assert BoundRows(i, lo, hi) == low + high;
    assert LeHold(low, x) <==> (lo.Some? ==> lo.value <= x[i]);
    assert LeHold(high, x) <==> (hi.Some? ==> x[i] <= hi.value);
  }

  lemma {:induction false} BuildRows(ds: seq<Declaration>, x: Point)
    requires Fits(ds, |x|)
    ensures Rowed(Build(ds), x)
    ensures RowsHold(Build(ds), x) <==> KeepsAll(ds, x)
    decreases |ds|
  {
    if ds != [] {
      var init, d := ds[..|ds| - 1], ds[|ds| - 1];
      SoundInit(ds);
      assert d in ds && forall e :: e in init ==> e in ds;
      BuildRows(init, x);
      ApplyRows(Build(init), d, x);
      forall k | 0 <= k < |init|
        ensures KeepsAt(ds, k, x) <==> KeepsAt(init, k, x)
      {
        assert init[..k] == ds[..k] && init[k] == ds[k];
      }
      assert KeepsAt(ds, |init|, x) <==> Keeps(d, Variables(init), x);
    }
  }

  ghost predicate RowHoldsAt(b: Problem, r: nat, x: Point)
    requires Rowed(b, x) && r < |b.eq| + |b.le|
  {
    if r < |b.eq| then
      assert b.eq[r] in b.eq; Dot(b.eq[r].terms, x) == b.eq[r].rhs
    else
      var k := r - |b.eq|;
      assert b.le[k] in b.le; Dot(b.le[k].terms, x) <= b.le[k].rhs
  }

  lemma RowsHoldAt(b: Problem, x: Point)
    requires Rowed(b, x)
    ensures RowsHold(b, x) <==> forall r :: 0 <= r < |b.eq| + |b.le| ==> RowHoldsAt(b, r, x)
  {
    if forall r :: 0 <= r < |b.eq| + |b.le| ==> RowHoldsAt(b, r, x) {
      forall row | row in b.eq
        ensures Dot(row.terms, x) == row.rhs
      {
        var k :| 0 <= k < |b.eq| && b.eq[k] == row;
        assert RowHoldsAt(b, k, x);
      }
      forall row | row in b.le
        ensures Dot(row.terms, x) <= row.rhs
      {
        var k :| 0 <= k < |b.le| && b.le[k] == row;
        assert RowHoldsAt(b, |b.eq| + k, x);
      }
    }
  }

  lemma SolverRow(b: Problem, r: nat, x: Point)
    requires Rowed(b, x) && r < |b.eq| + |b.le|
    ensures SolverRowHolds(b, r, x) <==> RowHoldsAt(b, r, x)
  {
    var rows := b.eq + b.le;
    assert forall row :: row in rows <==> row in b.eq || row in b.le;
    AssembledRow(rows, x, r);
    assert rows[r] == if r < |b.eq| then b.eq[r] else b.le[r - |b.eq|];
  }

  // The assembled matrices hold at a point exactly when every row holds.
  lemma SolverRows(b: Problem, x: Point)
    requires Rowed(b, x) && |x| == b.n
    ensures SolverFeasible(b, x) <==> RowsHold(b, x)
  {
    forall r | 0 <= r < |b.eq| + |b.le|
      ensures SolverRowHolds(b, r, x) <==> RowHoldsAt(b, r, x)
    {
      SolverRow(b, r, x);
    }
    RowsHoldAt(b, x);
  }

  // ---------------------------------------------------------------- objective

  // The linear part counts the variables that exist.
  function LinearPart(q: seq<real>, x: Point): real
    requires |q| <= |x|
  {
    Inner(q, x[..|q|])
  }

  lemma LinearGrows(q: seq<real>, x: Point)
    requires |q| < |x|
    ensures LinearPart(q + [0.0], x) == LinearPart(q, x)
  {
    var after := Products(q + [0.0], x[..|q| + 1]);
    forall k | 0 <= k < |q|
      ensures after[k] == Products(q, x[..|q|])[k]
    {
      assert (q + [0.0])[k] == q[k];
    }
    assert after[..|q|] == Products(q, x[..|q|]);
    Zero(0.0, x[|q|]);
  }

  lemma LinearRaised(q: seq<real>, i: nat, c: real, x: Point, share: real)
    requires i < |q| <= |x| && share == c * x[i]
    ensures LinearPart(q[i := q[i] + c], x) == LinearPart(q, x) + share
  {
    InnerRaised(q, q[i := q[i] + c], x[..|q|], i, c, share);
  }

  function Value(b: Problem, x: Point): real
    requires |b.q| <= |x|
  {
    Quadratic(b.p, x) / 2.0 + LinearPart(b.q, x)
  }

  // One call adds exactly its own cost.
  lemma ApplyValue(b: Problem, d: Declaration, x: Point)
    requires Scoped(d, |x|) && b.n == |b.q| <= |x|
    requires (d.Variable? ==> b.n < |x|) && (d.Linear? ==> d.i < |b.q|)
    ensures Value(Apply(b, d), x) == Value(b, x) + CostOf(d, x)
  {
    match d
    case Variable(lo, hi) => LinearGrows(b.q, x);
    case Linear(i, c) => LinearRaised(b.q, i, c, x, c * x[i]);
    case Equal(_, _) =>
    case AtMost(_, _) =>
    case AtLeast(_, _) =>
    case Squared(terms, w) => SquareAddsSquare(b.p, terms, w, x);
  }

  lemma EmptyQuadratic(x: Point)
    ensures Quadratic([], x) == 0.0
  {
    forall i | 0 <= i < |x|
      ensures SymVec([], x)[i] == 0.0
    {
      InnerZeros(SymRowOf([], i, |x|), x);
    }
    InnerZeros(SymVec([], x), x);
  }

  lemma {:induction false} BuildValue(ds: seq<Declaration>, x: Point)
    requires Fits(ds, |x|)
    ensures Value(Build(ds), x) == DeclaredCost(ds, x)
    decreases |ds|
  {
    if ds == [] {
      EmptyQuadratic(x);
    } else {
      var init, d := ds[..|ds| - 1], ds[|ds| - 1];
      SoundInit(ds);
      assert d in ds && forall e :: e in init ==> e in ds;
      BuildValue(init, x);
      ApplyValue(Build(init), d, x);
      assert Costs(ds, x)[..|init|] == Costs(init, x);
    }
  }

  // ---------------------------------------------------------------- the program means what was declared

  lemma ProgramMeansDeclarations(ds: seq<Declaration>, x: Point)
    requires Fits(ds, |x|) && Variables(ds) == |x|
    ensures SolverFeasible(Build(ds), x) <==> KeepsAll(ds, x)
    ensures Objective(Build(ds), x) == DeclaredCost(ds, x)
  {
    BuildRows(ds, x);
    SolverRows(Build(ds), x);
    BuildValue(ds, x);
    assert x[..|x|] == x;
  }
}
