// The matrices the solver sees mean what was declared.
module QpMeaning {
  import opened Sums
  import opened Qps

  // ---------------------------------------------------------------- inner products

  // Raising one coefficient by v raises the product by v times its variable.
  lemma InnerRaised(a: seq<real>, a': seq<real>, x: Point, k: nat, v: real, share: real)
    requires |a| == |a'| == |x| && k < |a| && share == v * x[k]
    requires forall j :: 0 <= j < |a| ==> a'[j] == if j == k then a[j] + v else a[j]
    ensures Inner(a', x) == Inner(a, x) + share
  {
    var s, s' := Products(a, x), Products(a', x);
    ScaleSum(a'[k], a[k], v, x[k]);
    assert s'[k] == s[k] + share;
    SumRaised(s, s', k, share);
  }

  lemma InnerZeros(a: seq<real>, x: Point)
    requires |a| == |x| && forall k :: 0 <= k < |a| ==> a[k] == 0.0
    ensures Inner(a, x) == 0.0
  {
    forall k | 0 <= k < |a|
      ensures Products(a, x)[k] == 0.0
    {
      Zero(a[k], x[k]);
    }
    SumZeros(Products(a, x));
  }

  lemma DotSnoc(terms: Terms, t: (nat, real), x: Point)
    requires Inside(terms, |x|) && t.0 < |x|
    ensures Inside(terms + [t], |x|) && Dot(terms + [t], x) == Dot(terms, x) + Term(t, x)
  {
    var values := TermValues(terms + [t], x);
    assert values[..|terms|] == TermValues(terms, x);
  }

  // ---------------------------------------------------------------- constraint rows

  lemma EntryOf(ts: seq<Triplet>, t: Triplet, r: nat, c: nat)
    ensures Entry(ts + [t], r, c) == if t.row == r && t.col == c then Entry(ts, r, c) + t.val else Entry(ts, r, c)
  {
    assert (ts + [t])[..|ts|] == ts;
  }

  lemma AddEntry(ts: seq<Triplet>, t: Triplet, x: Point, r: nat, share: real)
    requires t.col < |x| && share == t.val * x[t.col]
    ensures MatVec(ts + [t], x, r) == MatVec(ts, x, r) + (if t.row == r then share else 0.0)
  {
    var before, after := RowOf(ts, r, |x|), RowOf(ts + [t], r, |x|);
    forall c | 0 <= c < |x|
      ensures after[c] == if t.row == r && t.col == c then before[c] + t.val else before[c]
    {
      EntryOf(ts, t, r, c);
    }
    if t.row == r {
      InnerRaised(before, after, x, t.col, t.val, share);
    } else {
      assert after == before;
    }
  }

  // Adding the triplets of a row adds its product to that row of Ax and leaves the others alone.
  lemma {:induction false} AddRow(ts: seq<Triplet>, row: nat, terms: Terms, x: Point, r: nat)
    requires Inside(terms, |x|)
    ensures MatVec(ts + RowTriplets(row, terms), x, r)
            == MatVec(ts, x, r) + (if row == r then Dot(terms, x) else 0.0)
    decreases |terms|
  {
    if terms == [] {
      assert ts + RowTriplets(row, terms) == ts;
    } else {
      var init, t := terms[..|terms| - 1], terms[|terms| - 1];
      assert terms == init + [t] && t in terms && forall s :: s in init ==> s in terms;
      DotSnoc(init, t, x);
      AddRow(ts, row, init, x, r);
      AddTerm(ts, row, init, t, x, r);
    }
  }

  lemma AddTerm(ts: seq<Triplet>, row: nat, init: Terms, t: (nat, real), x: Point, r: nat)
    requires t.0 < |x|
    ensures MatVec(ts + RowTriplets(row, init + [t]), x, r)
            == MatVec(ts + RowTriplets(row, init), x, r) + (if row == r then Term(t, x) else 0.0)
  {
    var before := ts + RowTriplets(row, init);
    assert (init + [t])[..|init|] == init;
    if t.1 != 0.0 {
      AddEntry(before, Triplet(row, t.0, t.1), x, r, Term(t, x));
      assert ts + RowTriplets(row, init + [t]) == before + [Triplet(row, t.0, t.1)];
    } else {
      Zero(t.1, x[t.0]);
      assert ts + RowTriplets(row, init + [t]) == before;
    }
  }

  // Row r of the assembled Ax is the product of the r-th declared row, repeated triplets summed.
  lemma {:induction false} AssembledRow(rows: seq<Row>, x: Point, r: nat)
    requires forall k :: k in rows ==> Inside(k.terms, |x|)
    ensures r < |rows| ==> rows[r] in rows
    ensures MatVec(Assembled(rows), x, r) == if r < |rows| then Dot(rows[r].terms, x) else 0.0
    decreases |rows|
  {
    if rows == [] {
      InnerZeros(RowOf([], r, |x|), x);
    } else {
      var init, last := rows[..|rows| - 1], rows[|rows| - 1];
      assert last in rows && forall k :: k in init ==> k in rows;
      AssembledRow(init, x, r);
      AddRow(Assembled(init), |init|, last.terms, x, r);
    }
  }

  // ---------------------------------------------------------------- squares

  // What one triplet of the upper triangle adds to ½xᵀPx.
  function Half(t: Triplet, x: Point): real
    requires t.row < |x| && t.col < |x|
  {
    if t.row == t.col then t.val * x[t.row] * x[t.col] / 2.0 else t.val * x[t.row] * x[t.col]
  }

  lemma SymRaised(ts: seq<Triplet>, t: Triplet, x: Point, i: nat, c: nat, share: real)
    requires t.row <= t.col < |x| && ((i == t.row && c == t.col) || (i == t.col && c == t.row))
    requires share == t.val * x[c]
    ensures Inner(SymRowOf(ts + [t], i, |x|), x) == Inner(SymRowOf(ts, i, |x|), x) + share
  {
    var before, after := SymRowOf(ts, i, |x|), SymRowOf(ts + [t], i, |x|);
    forall j | 0 <= j < |x|
      ensures after[j] == if j == c then before[j] + t.val else before[j]
    {
      EntryOf(ts, t, i, j);
      EntryOf(ts, t, j, i);
    }
    InnerRaised(before, after, x, c, t.val, share);
  }

  lemma OtherSymRow(ts: seq<Triplet>, t: Triplet, n: nat, i: nat)
    requires i != t.row && i != t.col
    ensures SymRowOf(ts + [t], i, n) == SymRowOf(ts, i, n)
  {
    forall j | 0 <= j < n
      ensures Sym(ts + [t], i, j) == Sym(ts, i, j)
    {
      EntryOf(ts, t, i, j);
      EntryOf(ts, t, j, i);
    }
  }

  // Two entries raised, by shares of the product.
  lemma InnerTwoRaised(before: seq<real>, after: seq<real>, x: Point, r: nat, c: nat,
                       up: real, down: real, upShare: real, downShare: real)
    requires |before| == |after| == |x| && r < |x| && c < |x|
    requires upShare == up * x[r] && downShare == down * x[c]
    requires forall i :: 0 <= i < |x| ==>
      after[i] == if i == r then before[i] + up else if i == c then before[i] + down else before[i]
    ensures Inner(after, x) == Inner(before, x) + upShare + (if r == c then 0.0 else downShare)
  {
    var first := before[r := before[r] + up];
    InnerRaised(before, first, x, r, up, upShare);
    if r == c {
      assert after == first;
    } else {
      InnerRaised(first, after, x, c, down, downShare);
    }
  }

  lemma SymVecRaised(ts: seq<Triplet>, t: Triplet, x: Point, up: real, down: real, i: nat)
    requires t.row <= t.col < |x| && up == t.val * x[t.col] && down == t.val * x[t.row] && i < |x|
    ensures var before, after := SymVec(ts, x), SymVec(ts + [t], x);
      after[i] == if i == t.row then before[i] + up else if i == t.col then before[i] + down else before[i]
  {
    if i == t.row {
      SymRaised(ts, t, x, i, t.col, up);
    } else if i == t.col {
      SymRaised(ts, t, x, i, t.row, down);
    } else {
      OtherSymRow(ts, t, |x|, i);
    }
  }

  // One triplet adds twice its half to xᵀPx.
  lemma AddQuadratic(ts: seq<Triplet>, t: Triplet, x: Point)
    requires t.row <= t.col < |x|
    ensures Quadratic(ts + [t], x) == Quadratic(ts, x) + 2.0 * Half(t, x)
  {
    QuadraticRaised(ts, t, x, t.val * x[t.col], t.val * x[t.row], t.val * x[t.row] * x[t.col]);
  }

  lemma QuadraticRaised(ts: seq<Triplet>, t: Triplet, x: Point, up: real, down: real, share: real)
    requires t.row <= t.col < |x| && up == t.val * x[t.col] && down == t.val * x[t.row]
    requires share == t.val * x[t.row] * x[t.col]
    ensures Quadratic(ts + [t], x) == Quadratic(ts, x) + (if t.row == t.col then share else 2.0 * share)
  {
    forall i | 0 <= i < |x|
      ensures SymVec(ts + [t], x)[i]
              == if i == t.row then SymVec(ts, x)[i] + up
                 else if i == t.col then SymVec(ts, x)[i] + down else SymVec(ts, x)[i]
    {
      SymVecRaised(ts, t, x, up, down, i);
    }
    InnerTwoRaised(SymVec(ts, x), SymVec(ts + [t], x), x, t.row, t.col, up, down, share, share);
  }

  function HalfValues(ts: seq<Triplet>, x: Point): seq<real>
    requires UpperInside(ts, |x|)
  {
    seq(|ts|, k requires 0 <= k < |ts| => (assert ts[k] in ts; Half(ts[k], x)))
  }

  ghost predicate UpperInside(ts: seq<Triplet>, n: nat) {
    forall t :: t in ts ==> t.row <= t.col < n
  }

  lemma {:induction false} AddHalves(ps: seq<Triplet>, ts: seq<Triplet>, x: Point)
    requires UpperInside(ts, |x|)
    ensures Quadratic(ps + ts, x) / 2.0 == Quadratic(ps, x) / 2.0 + Sum(HalfValues(ts, x))
    decreases |ts|
  {
    if ts == [] {
      assert ps + ts == ps;
    } else {
      var init, t := ts[..|ts| - 1], ts[|ts| - 1];
      assert t in ts && forall s :: s in init ==> s in ts;
      AddHalves(ps, init, x);
      AddQuadratic(ps + init, t, x);
      assert ps + ts == (ps + init) + [t];
      assert HalfValues(ts, x)[..|init|] == HalfValues(init, x);
    }
  }

  // ---------------------------------------------------------------- merging repeated variables

  ghost predicate Distinct(a: Terms) {
    forall k, l :: 0 <= k < l < |a| ==> a[k].0 != a[l].0
  }

  ghost predicate Absent(i: nat, a: Terms) {
    forall k :: 0 <= k < |a| ==> a[k].0 != i
  }

  lemma FindVariable(a: Terms, i: nat) returns (k: nat)
    ensures k <= |a| && (forall j :: 0 <= j < k ==> a[j].0 != i) && (k < |a| ==> a[k].0 == i)
  {
    k := 0;
    while k < |a| && a[k].0 != i
      invariant 0 <= k <= |a| && forall j :: 0 <= j < k ==> a[j].0 != i
    {
      k := k + 1;
    }
  }

  lemma TermAdds(i: nat, u: real, v: real, x: Point)
    requires i < |x|
    ensures Term((i, u + v), x) == Term((i, u), x) + Term((i, v), x)
  {
    ScaleSum(u + v, u, v, x[i]);
  }

  lemma DotUpdate(a: Terms, k: nat, t: (nat, real), x: Point)
    requires Inside(a, |x|) && k < |a| && a[k].0 == t.0 < |x|
    ensures var a' := a[k := (t.0, a[k].1 + t.1)];
      Inside(a', |x|) && Dot(a', x) == Dot(a, x) + Term(t, x)
  {
    var a' := a[k := (t.0, a[k].1 + t.1)];
    assert forall s :: s in a' ==> s in a || s == a'[k];
    TermAdds(t.0, a[k].1, t.1, x);
    assert a[k] == (t.0, a[k].1) && t == (t.0, t.1);
    var before, after := TermValues(a, x), TermValues(a', x);
    SumRaised(before, after, k, Term(t, x));
  }

  lemma MergeOneKeeps(a: Terms, t: (nat, real), x: Point)
    requires Distinct(a) && Inside(a, |x|) && t.0 < |x|
    ensures Distinct(MergeOne(a, t)) && Inside(MergeOne(a, t), |x|)
    ensures Dot(MergeOne(a, t), x) == Dot(a, x) + Term(t, x)
  {
    var k := FindVariable(a, t.0);
    MergesAt(a, t, k);
    if k < |a| {
      DotUpdate(a, k, t, x);
    } else {
      DotSnoc(a, t, x);
    }
  }

  // Merging keeps aᵀx and leaves each variable once.
  lemma {:induction false} MergeKeeps(terms: Terms, x: Point)
    requires Inside(terms, |x|)
    ensures Distinct(Merge(terms)) && Inside(Merge(terms), |x|)
    ensures Dot(Merge(terms), x) == Dot(terms, x)
    decreases |terms|
  {
    if terms != [] {
      var init, t := terms[..|terms| - 1], terms[|terms| - 1];
      assert t in terms && forall s :: s in init ==> s in terms;
      MergeKeeps(init, x);
      MergeOneKeeps(Merge(init), t, x);
      assert terms == init + [t];
      DotSnoc(init, t, x);
    }
  }

  // ---------------------------------------------------------------- pairs are squares

  lemma Shuffle(w: real, a: real, x: real, b: real, y: real)
    ensures 2.0 * w * a * b * x * y == w * (2.0 * (a * x) * (b * y))
    ensures 2.0 * w * a * b * y * x == w * (2.0 * (a * x) * (b * y))
  {
  }

  lemma PairOff(s: (nat, real), t: (nat, real), w: real, x: Point)
    requires s.0 < |x| && t.0 < |x| && s.0 != t.0
    ensures var p := Pair(s, t, w);
      p.row <= p.col < |x| && Half(p, x) == w * (2.0 * Term(s, x) * Term(t, x))
  {
    Shuffle(w, s.1, x[s.0], t.1, x[t.0]);
  }

  lemma PairOn(s: (nat, real), w: real, x: Point)
    requires s.0 < |x|
    ensures var p := Pair(s, s, w);
      p.row <= p.col < |x| && Half(p, x) == w * (Term(s, x) * Term(s, x))
  {
    Shuffle(w, s.1, x[s.0], s.1, x[s.0]);
  }

  function Scaled(g: seq<real>, c: real): seq<real> {
    seq(|g|, k requires 0 <= k < |g| => c * g[k])
  }

  // The own square of a number, and its products with the numbers behind it.
  function FirstProducts(a: real, rest: seq<real>): seq<real> {
    [a * a] + Scaled(rest, 2.0 * a)
  }

  function PairProducts(g: seq<real>): seq<real> {
    if g == [] then [] else FirstProducts(g[0], g[1..]) + PairProducts(g[1..])
  }

  lemma SquareOfSum(sum: real, a: real, d: real)
    requires sum == a + d
    ensures a * a + 2.0 * a * d + d * d == sum * sum
  {
  }

  lemma SumScaledTo(s: seq<real>, w: real, sum: real)
    requires Sum(s) == sum
    ensures Sum(Scaled(s, w)) == Weighted(w, sum)
  {
    SumScaled(s, Scaled(s, w), w);
  }

  lemma SumFirst(a: real, rest: seq<real>, d: real)
    requires d == Sum(rest)
    ensures Sum(FirstProducts(a, rest)) == a * a + 2.0 * a * d
  {
    SumScaledTo(rest, 2.0 * a, d);
    SumCons(a * a, Scaled(rest, 2.0 * a));
  }

  lemma StepSquare(first: seq<real>, later: seq<real>, sum: real, a: real, d: real)
    requires Sum(first) == a * a + 2.0 * a * d && Sum(later) == Square(d) && sum == a + d
    ensures Sum(first + later) == Square(sum)
  {
    SumAppend(first, later);
    SquareOfSum(sum, a, d);
  }

  lemma {:induction false} ProductsAreSquare(g: seq<real>, sum: real)
    requires sum == Sum(g)
    ensures Sum(PairProducts(g)) == Square(sum)
    decreases |g|
  {
    if g == [] {
      Zero(sum, sum);
    } else {
      var a, rest := g[0], g[1..];
      assert g == [a] + rest;
      SumCons(a, rest);
      var d := Sum(rest);
      ProductsAreSquare(rest, d);
      SumFirst(a, rest, d);
      StepSquare(FirstProducts(a, rest), PairProducts(rest), sum, a, d);
    }
  }

  lemma HalvesAppend(a: seq<Triplet>, b: seq<Triplet>, x: Point)
    requires UpperInside(a, |x|) && UpperInside(b, |x|)
    ensures UpperInside(a + b, |x|) && HalfValues(a + b, x) == HalfValues(a, x) + HalfValues(b, x)
  {
  }

  lemma ScaledAppend(a: seq<real>, b: seq<real>, w: real)
    ensures Scaled(a + b, w) == Scaled(a, w) + Scaled(b, w)
  {
    forall k | 0 <= k < |a + b|
      ensures Scaled(a + b, w)[k] == (Scaled(a, w) + Scaled(b, w))[k]
    {
      assert (a + b)[k] == if k < |a| then a[k] else b[k - |a|];
    }
  }

  lemma FirstPairs(s: (nat, real), rest: Terms, w: real, x: Point)
    requires s.0 < |x| && Inside(rest, |x|) && Absent(s.0, rest)
    ensures var ps := PairsWith(s, [s] + rest, w);
      UpperInside(ps, |x|) && HalfValues(ps, x) == Scaled(FirstProducts(Term(s, x), TermValues(rest, x)), w)
  {
    var ps := PairsWith(s, [s] + rest, w);
    var values := FirstProducts(Term(s, x), TermValues(rest, x));
    forall k | 0 <= k < |ps|
      ensures ps[k].row <= ps[k].col < |x| && Half(ps[k], x) == w * values[k]
    {
      if k == 0 {
        PairOn(s, w, x);
      } else {
        assert rest[k - 1] in rest && ([s] + rest)[k] == rest[k - 1];
        PairOff(s, rest[k - 1], w, x);
        assert values[k] == 2.0 * Term(s, x) * TermValues(rest, x)[k - 1];
      }
    }
    forall k | 0 <= k < |ps|
      ensures HalfValues(ps, x)[k] == Scaled(values, w)[k]
    {
    }
  }

  // For distinct variables the triplets of the pairs have the values of the pairs.
  lemma {:induction false} PairsHaveProducts(a: Terms, w: real, x: Point)
    requires Distinct(a) && Inside(a, |x|)
    ensures UpperInside(Pairs(a, w), |x|)
    ensures HalfValues(Pairs(a, w), x) == Scaled(PairProducts(TermValues(a, x)), w)
    decreases |a|
  {
    if a != [] {
      var s, rest := a[0], a[1..];
      assert a == [s] + rest && s in a && forall t :: t in rest ==> t in a;
      PairsHaveProducts(rest, w, x);
      FirstPairs(s, rest, w, x);
      HalvesAppend(PairsWith(s, a, w), Pairs(rest, w), x);
      assert TermValues(a, x)[1..] == TermValues(rest, x) && TermValues(a, x)[0] == Term(s, x);
      ScaledAppend(FirstProducts(Term(s, x), TermValues(rest, x)), PairProducts(TermValues(rest, x)), w);
    }
  }

  lemma SquareOfDot(a: Terms, w: real, x: Point, dot: real)
    requires Distinct(a) && Inside(a, |x|) && dot == Dot(a, x)
    ensures UpperInside(Pairs(a, w), |x|)
    ensures Sum(HalfValues(Pairs(a, w), x)) == Weighted(w, Square(dot))
  {
    PairsHaveProducts(a, w, x);
    ProductsAreSquare(TermValues(a, x), dot);
    SumScaledTo(PairProducts(TermValues(a, x)), w, Square(dot));
  }

  lemma PairsAdd(ps: seq<Triplet>, a: Terms, w: real, x: Point, dot: real)
    requires Distinct(a) && Inside(a, |x|) && dot == Dot(a, x)
    ensures Quadratic(ps + Pairs(a, w), x) / 2.0 == Quadratic(ps, x) / 2.0 + Weighted(w, Square(dot))
  {
    SquareOfDot(a, w, x, dot);
    AddHalves(ps, Pairs(a, w), x);
  }

  // What `square` adds to the objective is w(aᵀx)², repeated variables included.
  lemma SquareAddsSquare(ps: seq<Triplet>, terms: Terms, w: real, x: Point)
    requires Inside(terms, |x|)
    ensures Quadratic(ps + Pairs(Merge(terms), w), x) / 2.0
            == Quadratic(ps, x) / 2.0 + Weighted(w, Square(Dot(terms, x)))
  {
    MergeKeeps(terms, x);
    PairsAdd(ps, Merge(terms), w, x, Dot(terms, x));
  }
}
