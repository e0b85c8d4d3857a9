// Sums of real numbers.
module Sums {
  function Sum(s: seq<real>): real {
    if s == [] then 0.0 else Sum(s[..|s| - 1]) + s[|s| - 1]
  }

  function Square(a: real): real {
    a * a
  }

  function Weighted(w: real, a: real): real {
    w * a
  }

  lemma ScaleSum(sum: real, a: real, b: real, x: real)
    requires sum == a + b
    ensures sum * x == a * x + b * x && x * sum == x * a + x * b
  {
  }

  lemma Zero(a: real, x: real)
    requires a == 0.0
    ensures a * x == 0.0 && x * a == 0.0
  {
  }

  lemma {:induction false} SumUpdate(s: seq<real>, k: nat, v: real)
    requires k < |s|
    ensures Sum(s[k := s[k] + v]) == Sum(s) + v
    decreases |s|
  {
    var n := |s| - 1;
    var s' := s[k := s[k] + v];
    if k == n {
      assert s'[..n] == s[..n];
    } else {
      assert s'[..n] == s[..n][k := s[..n][k] + v];
      SumUpdate(s[..n], k, v);
    }
  }

  lemma SumRaised(s: seq<real>, s': seq<real>, k: nat, v: real)
    requires |s| == |s'| && k < |s| && s'[k] == s[k] + v
    requires forall j :: 0 <= j < |s| && j != k ==> s'[j] == s[j]
    ensures Sum(s') == Sum(s) + v
  {
    assert s' == s[k := s[k] + v];
    SumUpdate(s, k, v);
  }

  lemma {:induction false} SumZeros(s: seq<real>)
    requires forall k :: 0 <= k < |s| ==> s[k] == 0.0
    ensures Sum(s) == 0.0
    decreases |s|
  {
    if s != [] {
      SumZeros(s[..|s| - 1]);
    }
  }

  lemma {:induction false} SumScaled(s: seq<real>, s': seq<real>, c: real)
    requires |s| == |s'| && forall k :: 0 <= k < |s| ==> s'[k] == c * s[k]
    ensures Sum(s') == c * Sum(s)
    decreases |s|
  {
    if s == [] {
      Zero(Sum(s), c);
    } else {
      var n := |s| - 1;
      SumScaled(s[..n], s'[..n], c);
      ScaleSum(Sum(s), Sum(s[..n]), s[n], c);
    }
  }

  lemma {:induction false} SumAppend(a: seq<real>, b: seq<real>)
    ensures Sum(a + b) == Sum(a) + Sum(b)
    decreases |b|
  {
    if b == [] {
      assert a + b == a;
    } else {
      assert (a + b)[..|a + b| - 1] == a + b[..|b| - 1];
      SumAppend(a, b[..|b| - 1]);
    }
  }

  lemma SumCons(a: real, s: seq<real>)
    ensures Sum([a] + s) == a + Sum(s)
  {
    SumAppend([a], s);
    assert [a][..0] == [];
  }
}
