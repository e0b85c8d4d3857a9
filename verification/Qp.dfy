// The builder of convex quadratic programs (crates/planner/src/qp.rs): what the declarations mean,
// and that the assembled matrices mean the same.
module Qps {
  import opened Basics
  import opened Sums

  type Point = seq<real>
  type Terms = seq<(nat, real)>

  datatype Triplet = Triplet(row: nat, col: nat, val: real)
  datatype Row = Row(terms: Terms, rhs: real)

  // The builder's state. An infinite bound is None.
  datatype Problem = Problem(n: nat, q: seq<real>, p: seq<Triplet>, eq: seq<Row>, le: seq<Row>)

  predicate Inside(terms: Terms, n: nat) {
    forall t :: t in terms ==> t.0 < n
  }

  // One summand of aᵀx.
  function Term(t: (nat, real), x: Point): real
    requires t.0 < |x|
  {
    t.1 * x[t.0]
  }

  function TermValues(terms: Terms, x: Point): seq<real>
    requires Inside(terms, |x|)
  {
    seq(|terms|, k requires 0 <= k < |terms| => (assert terms[k] in terms; Term(terms[k], x)))
  }

  // aᵀx
  function Dot(terms: Terms, x: Point): real
    requires Inside(terms, |x|)
  {
    Sum(TermValues(terms, x))
  }

  // ---------------------------------------------------------------- the builder

  // One call of the builder.
  datatype Declaration =
    | Variable(lo: Option<real>, hi: Option<real>)
    | Linear(i: nat, c: real)
    | Equal(terms: Terms, rhs: real)
    | AtMost(terms: Terms, rhs: real)
    | AtLeast(terms: Terms, rhs: real)
    | Squared(terms: Terms, w: real)

  function BoundRows(i: nat, lo: Option<real>, hi: Option<real>): seq<Row> {
    (if lo.Some? then [Row([(i, -1.0)], -lo.value)] else [])
    + (if hi.Some? then [Row([(i, 1.0)], hi.value)] else [])
  }

  function AddVar(b: Problem, lo: Option<real>, hi: Option<real>): Problem {
    b.(n := b.n + 1, q := b.q + [0.0], le := b.le + BoundRows(b.n, lo, hi))
  }

  function AddCost(b: Problem, i: nat, c: real): Problem
    requires i < |b.q|
  {
    b.(q := b.q[i := b.q[i] + c])
  }

  function Negated(terms: Terms): Terms {
    seq(|terms|, k requires 0 <= k < |terms| => (terms[k].0, -terms[k].1))
  }

  // Puts a coefficient onto the first entry of its variable, or behind all entries.
  function MergeOne(a: Terms, t: (nat, real)): Terms {
    if a == [] then [t]
    else if a[0].0 == t.0 then [(t.0, a[0].1 + t.1)] + a[1..]
    else [a[0]] + MergeOne(a[1..], t)
  }

  // The first entry of the variable is at k, or nowhere.
  lemma {:induction false} MergesAt(a: Terms, t: (nat, real), k: nat)
    requires k <= |a| && (forall j :: 0 <= j < k ==> a[j].0 != t.0)
    requires k < |a| ==> a[k].0 == t.0
    ensures MergeOne(a, t) == if k < |a| then a[k := (t.0, a[k].1 + t.1)] else a + [t]
    decreases k
  {
    if k > 0 {
      MergesAt(a[1..], t, k - 1);
    }
  }

  function Merge(terms: Terms): Terms {
    if terms == [] then [] else MergeOne(Merge(terms[..|terms| - 1]), terms[|terms| - 1])
  }

  function Pair(s: (nat, real), t: (nat, real), w: real): Triplet {
    var value := 2.0 * w * s.1 * t.1;
    if s.0 <= t.0 then Triplet(s.0, t.0, value) else Triplet(t.0, s.0, value)
  }

  function PairsWith(s: (nat, real), rest: Terms, w: real): seq<Triplet> {
    seq(|rest|, k requires 0 <= k < |rest| => Pair(s, rest[k], w))
  }

  // Each unordered pair once.
  function Pairs(a: Terms, w: real): seq<Triplet> {
    if a == [] then [] else PairsWith(a[0], a, w) + Pairs(a[1..], w)
  }

  function AddSquare(b: Problem, terms: Terms, w: real): Problem {
    b.(p := b.p + Pairs(Merge(terms), w))
  }

  // What one call adds. A cost on a variable that does not exist yet panics in the code.
  function Apply(b: Problem, d: Declaration): Problem
    requires d.Linear? ==> d.i < |b.q|
  {
    match d
    case Variable(lo, hi) => AddVar(b, lo, hi)
    case Linear(i, c) => AddCost(b, i, c)
    case Equal(terms, rhs) => b.(eq := b.eq + [Row(terms, rhs)])
    case AtMost(terms, rhs) => b.(le := b.le + [Row(terms, rhs)])
    case AtLeast(terms, rhs) => b.(le := b.le + [Row(Negated(terms), -rhs)])
    case Squared(terms, w) => AddSquare(b, terms, w)
  }

  // How many variables a list of calls makes. The next one gets this number.
  function Variables(ds: seq<Declaration>): nat {
    if ds == [] then 0
    else Variables(ds[..|ds| - 1]) + (if ds[|ds| - 1].Variable? then 1 else 0)
  }

  // The calls that do not panic: a cost is set on a variable that exists by then.
  ghost predicate Sound(ds: seq<Declaration>) {
    forall k :: 0 <= k < |ds| && ds[k].Linear? ==> ds[k].i < Variables(ds[..k])
  }

  lemma SoundInit(ds: seq<Declaration>)
    requires Sound(ds) && ds != []
    ensures Sound(ds[..|ds| - 1])
  {
    var init := ds[..|ds| - 1];
    forall k | 0 <= k < |init| && init[k].Linear?
      ensures init[k].i < Variables(init[..k])
    {
      assert init[..k] == ds[..k] && ds[k] == init[k];
    }
  }

  // The builder after those calls.
  ghost function Build(ds: seq<Declaration>): (b: Problem)
    requires Sound(ds)
    ensures b.n == |b.q| == Variables(ds)
  {
    if ds == [] then Problem(0, [], [], [], [])
    else
      SoundInit(ds);
      Apply(Build(ds[..|ds| - 1]), ds[|ds| - 1])
  }

  lemma BuildSnoc(ds: seq<Declaration>, d: Declaration)
    requires Sound(ds) && (d.Linear? ==> d.i < Variables(ds))
    ensures Sound(ds + [d]) && Build(ds + [d]) == Apply(Build(ds), d)
    ensures Variables(ds + [d]) == Variables(ds) + (if d.Variable? then 1 else 0)
  {
    var all := ds + [d];
    assert all[..|ds|] == ds;
    forall k | 0 <= k < |all| && all[k].Linear?
      ensures all[k].i < Variables(all[..k])
    {
      if k < |ds| {
        assert all[..k] == ds[..k];
      }
    }
  }

  class Qp {
    var n: nat
    var q: seq<real>
    var p: seq<Triplet>
    var eq: seq<Row>
    var le: seq<Row>
    // The calls made.
    ghost var log: seq<Declaration>

    ghost predicate Valid()
      reads this
    {
      Sound(log) && View() == Build(log)
    }

    ghost function View(): Problem
      reads this
    {
      Problem(n, q, p, eq, le)
    }

    constructor ()
      ensures Valid() && log == []
    {
      n, q, p, eq, le, log := 0, [], [], [], [], [];
    }

    method Var(lo: Option<real>, hi: Option<real>) returns (i: nat)
      requires Valid()
      modifies this
      ensures Valid() && log == old(log) + [Variable(lo, hi)] && i == Variables(old(log))
      ensures Variables(log) == i + 1
    {
      BuildSnoc(log, Variable(lo, hi));
      i := n;
      n := n + 1;
      q := q + [0.0];
      if lo.Some? {
        le := le + [Row([(i, -1.0)], -lo.value)];
      }
      if hi.Some? {
        le := le + [Row([(i, 1.0)], hi.value)];
      }
      assert le == old(le) + BoundRows(i, lo, hi);
      assert View() == Apply(old(View()), Variable(lo, hi));
      log := log + [Variable(lo, hi)];
    }

    method Cost(i: nat, c: real)
      requires Valid() && i < Variables(log)
      modifies this`q, this`log
      ensures Valid() && log == old(log) + [Linear(i, c)]
      ensures Variables(log) == Variables(old(log))
    {
      BuildSnoc(log, Linear(i, c));
      q := q[i := q[i] + c];
      log := log + [Linear(i, c)];
    }

    method Eq(terms: Terms, rhs: real)
      requires Valid()
      modifies this`eq, this`log
      ensures Valid() && log == old(log) + [Equal(terms, rhs)]
      ensures Variables(log) == Variables(old(log))
    {
      BuildSnoc(log, Equal(terms, rhs));
      eq := eq + [Row(terms, rhs)];
      log := log + [Equal(terms, rhs)];
    }

    method Le(terms: Terms, rhs: real)
      requires Valid()
      modifies this`le, this`log
      ensures Valid() && log == old(log) + [AtMost(terms, rhs)]
      ensures Variables(log) == Variables(old(log))
    {
      BuildSnoc(log, AtMost(terms, rhs));
      le := le + [Row(terms, rhs)];
      log := log + [AtMost(terms, rhs)];
    }

    method Ge(terms: Terms, rhs: real)
      requires Valid()
      modifies this`le, this`log
      ensures Valid() && log == old(log) + [AtLeast(terms, rhs)]
      ensures Variables(log) == Variables(old(log))
    {
      BuildSnoc(log, AtLeast(terms, rhs));
      le := le + [Row(Negated(terms), -rhs)];
      log := log + [AtLeast(terms, rhs)];
    }

    method Square(terms: Terms, w: real)
      requires Valid()
      modifies this`p, this`log
      ensures Valid() && log == old(log) + [Squared(terms, w)]
      ensures Variables(log) == Variables(old(log))
    {
      BuildSnoc(log, Squared(terms, w));
      var a: Terms := [];
      for k := 0 to |terms|
        invariant a == Merge(terms[..k]) && p == old(p) && log == old(log)
      {
        assert terms[..k + 1][..k] == terms[..k];
        a := MergeInto(a, terms[k]);
      }
      assert terms[..|terms|] == terms;
      PushSquare(a, w);
      log := log + [Squared(terms, w)];
    }

    method PushSquare(a: Terms, w: real)
      modifies this`p
      ensures p == old(p) + Pairs(a, w)
    {
      ghost var all := Pairs(a, w);
      ghost var start := p;
      assert a[0..] == a;
      for k := 0 to |a|
        invariant p + Pairs(a[k..], w) == start + all
      {
        ghost var before := p;
        assert a[k..][0] == a[k] && a[k..][1..] == a[k + 1..];
        PushPairs(a, k, w);
        assert before + (PairsWith(a[k], a[k..], w) + Pairs(a[k + 1..], w)) == p + Pairs(a[k + 1..], w);
      }
    }

    // P = 2w aaᵀ, row k of the upper triangle.
    method PushPairs(a: Terms, k: nat, w: real)
      requires k < |a|
      modifies this`p
      ensures p == old(p) + PairsWith(a[k], a[k..], w)
    {
      for j := k to |a|
        invariant p == old(p) + PairsWith(a[k], a[k..j], w)
      {
        p := p + [Pair(a[k], a[j], w)];
      }
    }

    // find / push of the merge loop.
    static method MergeInto(a: Terms, t: (nat, real)) returns (r: Terms)
      ensures r == MergeOne(a, t)
    {
      var k := 0;
      while k < |a| && a[k].0 != t.0
        invariant 0 <= k <= |a|
        invariant forall j :: 0 <= j < k ==> a[j].0 != t.0
      {
        k := k + 1;
      }
      MergesAt(a, t, k);
      if k < |a| {
        r := a[k := (t.0, a[k].1 + t.1)];
      } else {
        r := a + [t];
      }
    }

    // The constraint matrix and right-hand side handed to the solver, equalities first.
    method Assemble() returns (a: seq<Triplet>, b: seq<real>)
      ensures a == Assembled(eq + le) && b == RightSides(eq + le)
    {
      a, b := [], [];
      var rows := eq + le;
      for row := 0 to |rows|
        invariant a == Assembled(rows[..row]) && b == RightSides(rows[..row])
      {
        var terms := rows[row].terms;
        ghost var before := a;
        for k := 0 to |terms|
          invariant a == before + RowTriplets(row, terms[..k])
        {
          assert terms[..k + 1][..k] == terms[..k];
          if terms[k].1 != 0.0 {
            a := a + [Triplet(row, terms[k].0, terms[k].1)];
          }
        }
        assert terms[..|terms|] == terms;
        b := b + [rows[row].rhs];
        assert rows[..row + 1][..row] == rows[..row];
      }
      assert rows[..|rows|] == rows;
    }
  }

  function RowTriplets(row: nat, terms: Terms): seq<Triplet> {
    if terms == [] then []
    else
      var t := terms[|terms| - 1];
      RowTriplets(row, terms[..|terms| - 1]) + (if t.1 != 0.0 then [Triplet(row, t.0, t.1)] else [])
  }

  function Assembled(rows: seq<Row>): seq<Triplet> {
    if rows == [] then []
    else Assembled(rows[..|rows| - 1]) + RowTriplets(|rows| - 1, rows[|rows| - 1].terms)
  }

  function RightSides(rows: seq<Row>): seq<real> {
    seq(|rows|, k requires 0 <= k < |rows| => rows[k].rhs)
  }

  // ---------------------------------------------------------------- what the solver sees

  // Entry of the sparse matrix: repeated triplets are summed.
  function Entry(ts: seq<Triplet>, r: nat, c: nat): real {
    if ts == [] then 0.0
    else
      var t := ts[|ts| - 1];
      Entry(ts[..|ts| - 1], r, c) + (if t.row == r && t.col == c then t.val else 0.0)
  }

  function Products(a: seq<real>, x: Point): seq<real>
    requires |a| == |x|
  {
    seq(|a|, k requires 0 <= k < |a| => a[k] * x[k])
  }

  // Σ a[i]·x[i]
  function Inner(a: seq<real>, x: Point): real
    requires |a| == |x|
  {
    Sum(Products(a, x))
  }

  // Row r of the matrix, n columns wide.
  function RowOf(ts: seq<Triplet>, r: nat, n: nat): seq<real> {
    seq(n, c requires 0 <= c < n => Entry(ts, r, c))
  }

  // Row r of Ax.
  function MatVec(ts: seq<Triplet>, x: Point, r: nat): real {
    Inner(RowOf(ts, r, |x|), x)
  }

  // The symmetric matrix given by its upper triangle.
  function Sym(ts: seq<Triplet>, i: nat, j: nat): real {
    if i <= j then Entry(ts, i, j) else Entry(ts, j, i)
  }

  function SymRowOf(ts: seq<Triplet>, i: nat, n: nat): seq<real> {
    seq(n, j requires 0 <= j < n => Sym(ts, i, j))
  }

  // Px
  function SymVec(ts: seq<Triplet>, x: Point): seq<real> {
    seq(|x|, i requires 0 <= i < |x| => Inner(SymRowOf(ts, i, |x|), x))
  }

  // xᵀPx
  function Quadratic(ts: seq<Triplet>, x: Point): real {
    Inner(SymVec(ts, x), x)
  }

  // ½ xᵀPx + qᵀx
  function Objective(b: Problem, x: Point): real
    requires |b.q| == |x|
  {
    Quadratic(b.p, x) / 2.0 + Inner(b.q, x)
  }

  ghost predicate SolverRowHolds(b: Problem, r: nat, x: Point)
    requires r < |b.eq| + |b.le|
  {
    var rows := b.eq + b.le;
    var lhs := MatVec(Assembled(rows), x, r);
    if r < |b.eq| then lhs == RightSides(rows)[r] else lhs <= RightSides(rows)[r]
  }

  // A_eq x = b_eq and A_le x <= b_le, for the assembled matrices.
  ghost predicate SolverFeasible(b: Problem, x: Point)
    requires |x| == b.n
  {
    forall r :: 0 <= r < |b.eq| + |b.le| ==> SolverRowHolds(b, r, x)
  }
}
