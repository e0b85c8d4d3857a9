// Declarations in blocks: what holds of every block, from the number its first variable gets, holds of them all.
module Blocks {
  import opened Qps
  import opened Declared
  import opened Plans
  import opened PlanBuild
  import opened Moves

  // Costs are set on variables that exist, when the first variable made gets number start.
  ghost predicate Placed(ds: seq<Declaration>, start: nat) {
    forall k :: 0 <= k < |ds| && ds[k].Linear? ==> ds[k].i < start + Variables(ds[..k])
  }

  lemma PlacedAppend(a: seq<Declaration>, b: seq<Declaration>, start: nat)
    requires Placed(a, start) && Placed(b, start + Variables(a))
    ensures Placed(a + b, start)
  {
    forall k | 0 <= k < |a + b| && (a + b)[k].Linear?
      ensures (a + b)[k].i < start + Variables((a + b)[..k])
    {
      Front(a, b, k);
    }
  }

  lemma Front(a: seq<Declaration>, b: seq<Declaration>, k: nat)
    requires k < |a + b|
    ensures if k < |a| then (a + b)[k] == a[k] && Variables((a + b)[..k]) == Variables(a[..k])
            else (a + b)[k] == b[k - |a|]
                 && Variables((a + b)[..k]) == Variables(a) + Variables(b[..k - |a|])
  {
    if k < |a| {
      assert (a + b)[..k] == a[..k];
    } else {
      assert (a + b)[..k] == a + b[..k - |a|];
      VariablesAppend(a, b[..k - |a|]);
    }
  }

  lemma {:induction false} FlatPlaced(parts: seq<seq<Declaration>>, at: seq<nat>)
    requires Numbered(parts, at) && forall k :: 0 <= k < |parts| ==> Placed(parts[k], at[k])
    ensures Placed(Flat(parts), 0)
    decreases |parts|
  {
    if parts != [] {
      var n := |parts| - 1;
      FlatPlaced(parts[..n], at[..n + 1]);
      FlatCounts(parts[..n], at[..n + 1]);
      PlacedAppend(Flat(parts[..n]), parts[n], 0);
    }
  }

  // Variable v, if made here, may go down to zero.
  ghost predicate DownFrom(ds: seq<Declaration>, start: nat, v: nat) {
    forall k :: 0 <= k < |ds| && ds[k].Variable? && start + Variables(ds[..k]) == v ==> DownAt(ds[k])
  }

  ghost predicate DownAt(d: Declaration)
    requires d.Variable?
  {
    d.lo.Some? ==> d.lo.value <= 0.0
  }

  lemma DownAppend(a: seq<Declaration>, b: seq<Declaration>, start: nat, v: nat)
    requires DownFrom(a, start, v) && DownFrom(b, start + Variables(a), v)
    ensures DownFrom(a + b, start, v)
  {
    forall k | 0 <= k < |a + b| && (a + b)[k].Variable? && start + Variables((a + b)[..k]) == v
      ensures DownAt((a + b)[k])
    {
      Front(a, b, k);
    }
  }

  lemma DownElsewhere(ds: seq<Declaration>, start: nat, v: nat)
    requires v < start || v >= start + Variables(ds)
    ensures DownFrom(ds, start, v)
  {
    forall k | 0 <= k < |ds| && ds[k].Variable?
      ensures Variables(ds[..k]) < Variables(ds)
    {
      VariableBelow(ds, k);
    }
  }

  lemma {:induction false} FlatDown(parts: seq<seq<Declaration>>, at: seq<nat>, v: nat)
    requires Numbered(parts, at) && forall k :: 0 <= k < |parts| ==> DownFrom(parts[k], at[k], v)
    ensures DownFrom(Flat(parts), 0, v)
    decreases |parts|
  {
    if parts != [] {
      var n := |parts| - 1;
      FlatDown(parts[..n], at[..n + 1], v);
      FlatCounts(parts[..n], at[..n + 1]);
      DownAppend(Flat(parts[..n]), parts[n], 0, v);
    }
  }

  // Only block k prices v.
  lemma {:induction false} FlatPrice(parts: seq<seq<Declaration>>, v: nat, k: nat)
    requires forall m :: 0 <= m < |parts| && m != k ==> PriceOf(parts[m], v) == 0.0
    ensures PriceOf(Flat(parts), v) == if k < |parts| then PriceOf(parts[k], v) else 0.0
    decreases |parts|
  {
    if parts != [] {
      var n := |parts| - 1;
      FlatPrice(parts[..n], v, k);
      PriceAppend(Flat(parts[..n]), parts[n], v);
    }
  }

  lemma {:induction false} FlatMembers(parts: seq<seq<Declaration>>, d: Declaration) returns (k: nat)
    requires d in Flat(parts)
    ensures k < |parts| && d in parts[k]
    decreases |parts|
  {
    var n := |parts| - 1;
    if d in parts[n] {
      k := n;
    } else {
      k := FlatMembers(parts[..n], d);
    }
  }

  // Block k stands where the blocks before it end.
  lemma {:induction false} FlatAt(parts: seq<seq<Declaration>>, k: nat) returns (rest: seq<Declaration>)
    requires k < |parts|
    ensures Flat(parts) == Flat(parts[..k]) + parts[k] + rest
    decreases |parts|
  {
    var n := |parts| - 1;
    if k == n {
      rest := [];
    } else {
      var before := FlatAt(parts[..n], k);
      assert parts[..n][..k] == parts[..k];
      rest := before + parts[n];
    }
  }

  // ---------------------------------------------------------------- declarations that do not mention a variable

  ghost predicate Misses(d: Declaration, v: nat) {
    match d
    case Variable(_, _) => true
    case Linear(i, _) => i != v
    case Equal(terms, _) => Without(terms, v)
    case AtMost(terms, _) => Without(terms, v)
    case AtLeast(terms, _) => Without(terms, v)
    case Squared(terms, _) => Without(terms, v)
  }

  lemma MissingIsBorne(d: Declaration, i: nat, j: nat)
    requires Misses(d, i) && Misses(d, j)
    ensures Bears(d, i, j) && LinearPrice(d, i) == 0.0 && LinearPrice(d, j) == 0.0
  {
    if !d.Variable? && !d.Linear? {
      CoefWithout(d.terms, i);
      CoefWithout(d.terms, j);
    }
  }

  lemma MissingHasNoPrice(ds: seq<Declaration>, v: nat)
    requires forall d :: d in ds ==> Misses(d, v)
    ensures PriceOf(ds, v) == 0.0
  {
    forall d | d in ds
      ensures LinearPrice(d, v) == 0.0
    {
      assert Misses(d, v);
    }
    PriceElsewhere(ds, v);
  }
}
