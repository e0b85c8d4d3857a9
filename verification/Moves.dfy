// What happens to declared constraints and costs when a point is moved along one or two variables.
module Moves {
  import opened Basics
  import opened Sums
  import opened Qps
  import opened QpMeaning
  import opened Declared

  // The coefficient of variable v, repeated terms summed.
  function Coef(terms: Terms, v: nat): real {
    Sum(seq(|terms|, k requires 0 <= k < |terms| => if terms[k].0 == v then terms[k].1 else 0.0))
  }

  function Moved(x: Point, v: nat, amount: real): Point
    requires v < |x|
  {
    x[v := x[v] + amount]
  }

  lemma CoefSnoc(terms: Terms, t: (nat, real), v: nat)
    ensures Coef(terms + [t], v) == Coef(terms, v) + (if t.0 == v then t.1 else 0.0)
  {
    var all := seq(|terms + [t]|, k requires 0 <= k < |terms + [t]| =>
      if (terms + [t])[k].0 == v then (terms + [t])[k].1 else 0.0);
    assert all[..|terms|] == seq(|terms|, k requires 0 <= k < |terms| => if terms[k].0 == v then terms[k].1 else 0.0);
  }

  // The variable is not among the terms.
  ghost predicate Without(terms: Terms, v: nat) {
    forall t :: t in terms ==> t.0 != v
  }

  lemma {:induction false} CoefWithout(terms: Terms, v: nat)
    requires Without(terms, v)
    ensures Coef(terms, v) == 0.0
    decreases |terms|
  {
    if terms != [] {
      var init, t := terms[..|terms| - 1], terms[|terms| - 1];
      assert terms == init + [t] && t in terms && forall s :: s in init ==> s in terms;
      CoefWithout(init, v);
      CoefSnoc(init, t, v);
    }
  }

  lemma {:induction false} CoefAppend(a: Terms, b: Terms, v: nat)
    ensures Coef(a + b, v) == Coef(a, v) + Coef(b, v)
    decreases |b|
  {
    if b == [] {
      assert a + b == a;
    } else {
      var init, t := b[..|b| - 1], b[|b| - 1];
      assert b == init + [t] && a + b == (a + init) + [t];
      CoefAppend(a, init, v);
      CoefSnoc(a + init, t, v);
      CoefSnoc(init, t, v);
    }
  }

  lemma WeightedAdds(amount: real, a: real, b: real)
    ensures Weighted(amount, a + b) == Weighted(amount, a) + Weighted(amount, b)
  {
  }

  lemma TermMoved(t: (nat, real), x: Point, v: nat, amount: real)
    requires t.0 < |x| && v < |x|
    ensures Term(t, Moved(x, v, amount)) == Term(t, x) + Weighted(amount, if t.0 == v then t.1 else 0.0)
  {
    if t.0 == v {
      ScaleSum(x[v] + amount, x[v], amount, t.1);
    } else {
      Zero(0.0, amount);
    }
  }

  lemma {:induction false} DotMoved(terms: Terms, x: Point, v: nat, amount: real)
    requires Inside(terms, |x|) && v < |x|
    ensures Dot(terms, Moved(x, v, amount)) == Dot(terms, x) + Weighted(amount, Coef(terms, v))
    decreases |terms|
  {
    if terms == [] {
      Zero(Coef(terms, v), amount);
    } else {
      var init, t := terms[..|terms| - 1], terms[|terms| - 1];
      assert terms == init + [t] && t in terms && forall s :: s in init ==> s in terms;
      DotMoved(init, x, v, amount);
      DotSnoc(init, t, x);
      DotSnoc(init, t, Moved(x, v, amount));
      CoefSnoc(init, t, v);
      TermMoved(t, x, v, amount);
      WeightedAdds(amount, Coef(init, v), if t.0 == v then t.1 else 0.0);
    }
  }

  // ---------------------------------------------------------------- costs

  function LinearPrice(d: Declaration, v: nat): real {
    if d.Linear? && d.i == v then d.c else 0.0
  }

  // The declared linear cost of variable v.
  function PriceOf(ds: seq<Declaration>, v: nat): real {
    Sum(seq(|ds|, k requires 0 <= k < |ds| => LinearPrice(ds[k], v)))
  }

  ghost predicate NotSquared(d: Declaration, v: nat) {
    d.Squared? ==> Coef(d.terms, v) == 0.0
  }

  lemma CostOfMoved(d: Declaration, x: Point, v: nat, amount: real)
    requires Scoped(d, |x|) && v < |x| && NotSquared(d, v)
    ensures CostOf(d, Moved(x, v, amount)) == CostOf(d, x) + Weighted(amount, LinearPrice(d, v))
  {
    Zero(0.0, amount);
    match d
    case Squared(terms, w) =>
      DotMoved(terms, x, v, amount);
    case Linear(i, c) =>
      if i == v {
        ScaleSum(x[v] + amount, x[v], amount, c);
      }
    case Variable(_, _) =>
    case Equal(_, _) =>
    case AtMost(_, _) =>
    case AtLeast(_, _) =>
  }

  lemma {:induction false} DeclaredCostMoved(ds: seq<Declaration>, x: Point, v: nat, amount: real)
    requires forall d :: d in ds ==> Scoped(d, |x|) && NotSquared(d, v)
    requires v < |x|
    ensures DeclaredCost(ds, Moved(x, v, amount)) == DeclaredCost(ds, x) + Weighted(amount, PriceOf(ds, v))
    decreases |ds|
  {
    if ds == [] {
      Zero(0.0, amount);
    } else {
      var init, d := ds[..|ds| - 1], ds[|ds| - 1];
      assert d in ds && forall e :: e in init ==> e in ds;
      DeclaredCostMoved(init, x, v, amount);
      CostOfMoved(d, x, v, amount);
      LastCost(ds, x);
      LastCost(ds, Moved(x, v, amount));
      LastPrice(ds, v);
      WeightedAdds(amount, PriceOf(init, v), LinearPrice(d, v));
    }
  }

  lemma LastCost(ds: seq<Declaration>, x: Point)
    requires ds != [] && forall d :: d in ds ==> Scoped(d, |x|)
    ensures var init, d := ds[..|ds| - 1], ds[|ds| - 1];
      && d in ds && (forall e :: e in init ==> e in ds)
      && DeclaredCost(ds, x) == DeclaredCost(init, x) + CostOf(d, x)
  {
    var init := ds[..|ds| - 1];
    assert forall e :: e in init ==> e in ds;
    assert Costs(ds, x)[..|init|] == Costs(init, x);
  }

  lemma LastPrice(ds: seq<Declaration>, v: nat)
    requires ds != []
    ensures PriceOf(ds, v) == PriceOf(ds[..|ds| - 1], v) + LinearPrice(ds[|ds| - 1], v)
  {
    var init := ds[..|ds| - 1];
    var all := seq(|ds|, k requires 0 <= k < |ds| => LinearPrice(ds[k], v));
    assert all[..|init|] == seq(|init|, k requires 0 <= k < |init| => LinearPrice(init[k], v));
  }

  lemma {:induction false} PriceAppend(a: seq<Declaration>, b: seq<Declaration>, v: nat)
    ensures PriceOf(a + b, v) == PriceOf(a, v) + PriceOf(b, v)
    decreases |b|
  {
    if b == [] {
      assert a + b == a;
    } else {
      var init, d := b[..|b| - 1], b[|b| - 1];
      assert (a + b)[..|a + b| - 1] == a + init;
      PriceAppend(a, init, v);
      LastPrice(a + b, v);
      LastPrice(b, v);
    }
  }

  lemma {:induction false} PriceElsewhere(ds: seq<Declaration>, v: nat)
    requires forall d :: d in ds ==> LinearPrice(d, v) == 0.0
    ensures PriceOf(ds, v) == 0.0
    decreases |ds|
  {
    if ds != [] {
      var init := ds[..|ds| - 1];
      assert ds[|ds| - 1] in ds && forall e :: e in init ==> e in ds;
      PriceElsewhere(init, v);
      LastPrice(ds, v);
    }
  }

  // ---------------------------------------------------------------- lowering two variables together

  // Lowering i and j by the same amount does not harm this call.
  ghost predicate Bears(d: Declaration, i: nat, j: nat) {
    match d
    case Variable(_, _) => true
    case Linear(_, _) => true
    case Equal(terms, _) => Coef(terms, i) + Coef(terms, j) == 0.0
    case AtMost(terms, _) => Coef(terms, i) + Coef(terms, j) >= 0.0
    case AtLeast(terms, _) => Coef(terms, i) + Coef(terms, j) <= 0.0
    case Squared(terms, _) => Coef(terms, i) == 0.0 && Coef(terms, j) == 0.0
  }

  // A variable with this number may go down to zero.
  ghost predicate DownToZero(ds: seq<Declaration>, v: nat) {
    forall k :: 0 <= k < |ds| && ds[k].Variable? && Variables(ds[..k]) == v ==>
      (ds[k].lo.Some? ==> ds[k].lo.value <= 0.0)
  }

  function Lowered(x: Point, i: nat, j: nat, amount: real): Point
    requires i < |x| && j < |x|
  {
    Moved(Moved(x, i, -amount), j, -amount)
  }

  lemma WeightedSign(amount: real, c: real)
    requires amount >= 0.0
    ensures c >= 0.0 ==> Weighted(-amount, c) <= 0.0
    ensures c <= 0.0 ==> Weighted(-amount, c) >= 0.0
    ensures c == 0.0 ==> Weighted(-amount, c) == 0.0
  {
  }

  lemma DotLowered(terms: Terms, x: Point, i: nat, j: nat, amount: real)
    requires Inside(terms, |x|) && i < |x| && j < |x|
    ensures Dot(terms, Lowered(x, i, j, amount))
            == Dot(terms, x) + Weighted(-amount, Coef(terms, i) + Coef(terms, j))
  {
    DotMoved(terms, x, i, -amount);
    DotMoved(terms, Moved(x, i, -amount), j, -amount);
    WeightedAdds(-amount, Coef(terms, i), Coef(terms, j));
  }

  lemma LoweredKeeps(d: Declaration, n: nat, x: Point, i: nat, j: nat, amount: real)
    requires Scoped(d, |x|) && (d.Variable? ==> n < |x|) && i < |x| && j < |x| && i != j
    requires 0.0 <= amount <= x[i] && amount <= x[j] && Bears(d, i, j) && Keeps(d, n, x)
    requires d.Variable? && (n == i || n == j) ==> (d.lo.Some? ==> d.lo.value <= 0.0)
    ensures Keeps(d, n, Lowered(x, i, j, amount))
  {
    if d.Equal? || d.AtMost? || d.AtLeast? {
      DotLowered(d.terms, x, i, j, amount);
      WeightedSign(amount, Coef(d.terms, i) + Coef(d.terms, j));
    }
  }

  // Where every call bears it, two variables can be lowered by what the smaller one has.
  lemma LoweredKeepsAll(ds: seq<Declaration>, x: Point, i: nat, j: nat, amount: real)
    requires Fits(ds, |x|) && KeepsAll(ds, x) && i < |x| && j < |x| && i != j
    requires 0.0 <= amount <= x[i] && amount <= x[j]
    requires DownToZero(ds, i) && DownToZero(ds, j) && forall d :: d in ds ==> Bears(d, i, j)
    ensures KeepsAll(ds, Lowered(x, i, j, amount))
  {
    forall k | 0 <= k < |ds|
      ensures KeepsAt(ds, k, Lowered(x, i, j, amount))
    {
      assert KeepsAt(ds, k, x) && ds[k] in ds;
      VariableBelow(ds, k);
      LoweredKeeps(ds[k], Variables(ds[..k]), x, i, j, amount);
    }
  }

  // The cost falls by the amount times what both cost together.
  lemma LoweredCost(ds: seq<Declaration>, x: Point, i: nat, j: nat, amount: real)
    requires Fits(ds, |x|) && i < |x| && j < |x|
    requires forall d :: d in ds ==> Bears(d, i, j)
    ensures DeclaredCost(ds, Lowered(x, i, j, amount))
            == DeclaredCost(ds, x) + Weighted(-amount, PriceOf(ds, i) + PriceOf(ds, j))
  {
    assert forall d :: d in ds ==> NotSquared(d, i) && NotSquared(d, j);
    DeclaredCostMoved(ds, x, i, -amount);
    DeclaredCostMoved(ds, Moved(x, i, -amount), j, -amount);
    WeightedAdds(-amount, PriceOf(ds, i), PriceOf(ds, j));
  }

  // Never both: the two variables of a split can be netted without harm, at no greater cost.
  lemma Netted(ds: seq<Declaration>, x: Point, i: nat, j: nat) returns (x': Point)
    requires Fits(ds, |x|) && KeepsAll(ds, x) && i < |x| && j < |x| && i != j
    requires x[i] >= 0.0 && x[j] >= 0.0 && PriceOf(ds, i) + PriceOf(ds, j) >= 0.0
    requires DownToZero(ds, i) && DownToZero(ds, j) && forall d :: d in ds ==> Bears(d, i, j)
    ensures |x'| == |x| && KeepsAll(ds, x') && DeclaredCost(ds, x') <= DeclaredCost(ds, x)
    ensures x'[i] == Max(x[i] - x[j], 0.0) && x'[j] == Max(x[j] - x[i], 0.0)
    ensures forall k :: 0 <= k < |x| && k != i && k != j ==> x'[k] == x[k]
  {
    var amount := Min(x[i], x[j]);
    x' := Lowered(x, i, j, amount);
    LoweredKeepsAll(ds, x, i, j, amount);
    LoweredCost(ds, x, i, j, amount);
    WeightedSign(amount, PriceOf(ds, i) + PriceOf(ds, j));
  }
}
