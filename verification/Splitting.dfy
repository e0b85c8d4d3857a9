// Pairs of variables that may be netted: never both.
module Splitting {
  import opened Basics
  import opened Qps
  import opened Declared
  import opened Moves

  // Variable v starts from zero.
  ghost predicate FromZero(ds: seq<Declaration>, v: nat) {
    exists p :: 0 <= p < |ds| && ds[p].Variable? && ds[p].lo == Some(0.0) && Variables(ds[..p]) == v
  }

  // Lowering both does no call any harm.
  ghost predicate BothBorne(ds: seq<Declaration>, i: nat) {
    forall d :: d in ds ==> Bears(d, i, i + 1)
  }

  lemma BorneFour(a: seq<Declaration>, b: seq<Declaration>, c: seq<Declaration>, d: seq<Declaration>, i: nat)
    requires BothBorne(a, i) && BothBorne(b, i) && BothBorne(c, i) && BothBorne(d, i)
    ensures BothBorne(a + b + c + d, i)
  {
    forall e | e in a + b + c + d
      ensures Bears(e, i, i + 1)
    {
      assert e in a || e in b || e in c || e in d;
    }
  }

  ghost predicate BothFromZero(ds: seq<Declaration>, i: nat) {
    && FromZero(ds, i) && FromZero(ds, i + 1) && DownToZero(ds, i) && DownToZero(ds, i + 1) && i + 1 < Variables(ds)
  }

  // Variables i and i + 1 may be lowered together, and cost nothing less than zero together.
  ghost predicate SplitSafe(ds: seq<Declaration>, i: nat) {
    BothBorne(ds, i) && BothFromZero(ds, i) && PriceOf(ds, i) + PriceOf(ds, i + 1) >= 0.0
  }

  lemma NotNegative(ds: seq<Declaration>, x: Point, v: nat)
    requires Fits(ds, |x|) && KeepsAll(ds, x) && FromZero(ds, v) && v < |x|
    ensures x[v] >= 0.0
  {
    var p :| 0 <= p < |ds| && ds[p].Variable? && ds[p].lo == Some(0.0) && Variables(ds[..p]) == v;
    assert KeepsAt(ds, p, x);
  }

  lemma NetPair(ds: seq<Declaration>, x: Point, i: nat) returns (x': Point)
    requires Fits(ds, |x|) && KeepsAll(ds, x) && SplitSafe(ds, i)
    ensures |x'| == |x| && KeepsAll(ds, x') && DeclaredCost(ds, x') <= DeclaredCost(ds, x)
    ensures i + 1 < |x| && x'[i] == Max(x[i] - x[i + 1], 0.0) && x'[i + 1] == Max(x[i + 1] - x[i], 0.0)
    ensures forall v :: 0 <= v < |x| && v != i && v != i + 1 ==> x'[v] == x[v]
  {
    NotNegative(ds, x, i);
    NotNegative(ds, x, i + 1);
    x' := Netted(ds, x, i, i + 1);
  }

  // The pairs do not overlap.
  ghost predicate Apart(at: seq<nat>) {
    forall k, l :: 0 <= k < l < |at| ==> at[k] + 1 < at[l]
  }

  // The pairs up to n are netted, all else is as before.
  ghost predicate NettedTo(x: Point, x': Point, at: seq<nat>, n: nat)
    requires |x'| == |x| && n <= |at| && forall k :: 0 <= k < |at| ==> at[k] + 1 < |x|
  {
    && (forall k :: 0 <= k < n ==>
          x'[at[k]] == Max(x[at[k]] - x[at[k] + 1], 0.0) && x'[at[k] + 1] == Max(x[at[k] + 1] - x[at[k]], 0.0))
    && (forall k :: n <= k < |at| ==> x'[at[k]] == x[at[k]] && x'[at[k] + 1] == x[at[k] + 1])
    && forall v :: 0 <= v < |x| && Outside(at, v) ==> x'[v] == x[v]
  }

  ghost predicate Outside(at: seq<nat>, v: nat) {
    forall k :: 0 <= k < |at| ==> v != at[k] && v != at[k] + 1
  }

  lemma {:induction false} NetAll(ds: seq<Declaration>, x: Point, at: seq<nat>, n: nat) returns (x': Point)
    requires Fits(ds, |x|) && KeepsAll(ds, x) && Apart(at) && n <= |at|
    requires forall k :: 0 <= k < |at| ==> SplitSafe(ds, at[k]) && at[k] + 1 < |x|
    ensures |x'| == |x| && KeepsAll(ds, x') && DeclaredCost(ds, x') <= DeclaredCost(ds, x)
    ensures NettedTo(x, x', at, n)
    decreases n
  {
    if n == 0 {
      x' := x;
    } else {
      var before := NetAll(ds, x, at, n - 1);
      x' := NetPair(ds, before, at[n - 1]);
      NettedNext(x, before, x', at, n);
    }
  }

  lemma NettedNext(x: Point, before: Point, x': Point, at: seq<nat>, n: nat)
    requires |x'| == |before| == |x| && 0 < n <= |at| && Apart(at) && forall k :: 0 <= k < |at| ==> at[k] + 1 < |x|
    requires NettedTo(x, before, at, n - 1)
    requires var i := at[n - 1];
      && x'[i] == Max(before[i] - before[i + 1], 0.0) && x'[i + 1] == Max(before[i + 1] - before[i], 0.0)
      && forall v :: 0 <= v < |x| && v != i && v != i + 1 ==> x'[v] == before[v]
    ensures NettedTo(x, x', at, n)
  {
    forall k | 0 <= k < |at| && k != n - 1
      ensures x'[at[k]] == before[at[k]] && x'[at[k] + 1] == before[at[k] + 1]
    {
      assert if k < n - 1 then at[k] + 1 < at[n - 1] else at[n - 1] + 1 < at[k];
    }
  }
}
