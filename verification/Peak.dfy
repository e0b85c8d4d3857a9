// The demand charge (crates/planner/src/model.rs:484-495): the peak variable is the epigraph of a maximum.
module Peak {
  import opened Basics
  import opened Sums
  import opened Qps
  import opened QpMeaning
  import opened Declared
  import opened Plans
  import opened PlanBuild
  import opened Moves
  import opened Blocks
  import opened PlanShape
  import opened PlanSound

  // The row that keeps variable g at or below variable v.
  function Below(g: nat, v: nat): Declaration {
    AtMost([(g, 1.0), (v, -1.0)], 0.0)
  }

  // A call is one of those rows, or has no constraint on v but its own bounds.
  ghost predicate RowOrMisses(d: Declaration, gs: seq<nat>, v: nat) {
    (exists k :: 0 <= k < |gs| && d == Below(gs[k], v)) || d.Linear? || Misses(d, v)
  }

  // All that is said of v: its bounds, and that the variables gs stay at or below it.
  ghost predicate Epigraph(ds: seq<Declaration>, gs: seq<nat>, v: nat, lo: real, hi: Option<real>) {
    && (forall k :: 0 <= k < |gs| ==> gs[k] != v && Below(gs[k], v) in ds)
    && (forall d :: d in ds ==> RowOrMisses(d, gs, v))
    && (exists p :: Declares(ds, p, v))
    && (forall p :: Declares(ds, p, v) ==> ds[p] == Variable(Some(lo), hi))
  }

  // Call p makes variable v.
  ghost predicate Declares(ds: seq<Declaration>, p: int, v: nat) {
    0 <= p < |ds| && ds[p].Variable? && Variables(ds[..p]) == v
  }

  lemma DotPair(g: nat, v: nat, x: Point)
    requires g < |x| && v < |x|
    ensures Inside([(g, 1.0), (v, -1.0)], |x|) && Dot([(g, 1.0), (v, -1.0)], x) == x[g] - x[v]
  {
    var none: Terms := [];
    DotSnoc(none, (g, 1.0), x);
    DotSnoc([(g, 1.0)], (v, -1.0), x);
    assert none + [(g, 1.0)] == [(g, 1.0)] && [(g, 1.0)] + [(v, -1.0)] == [(g, 1.0), (v, -1.0)];
  }

  lemma DotUntouched(terms: Terms, x: Point, v: nat, p: real)
    requires Inside(terms, |x|) && v < |x| && Without(terms, v)
    ensures Dot(terms, x[v := p]) == Dot(terms, x)
  {
    forall k | 0 <= k < |terms|
      ensures TermValues(terms, x[v := p])[k] == TermValues(terms, x)[k]
    {
      assert terms[k] in terms;
    }
    assert TermValues(terms, x[v := p]) == TermValues(terms, x);
  }

  // The peak p is allowed.
  ghost predicate Allows(x: Point, gs: seq<nat>, lo: real, hi: Option<real>, p: real)
    requires forall k :: 0 <= k < |gs| ==> gs[k] < |x|
  {
    lo <= p && (hi.Some? ==> p <= hi.value) && forall k :: 0 <= k < |gs| ==> x[gs[k]] <= p
  }

  lemma KeepsWithPeak(ds: seq<Declaration>, q: nat, x: Point, gs: seq<nat>, v: nat, lo: real, hi: Option<real>, p: real)
    requires Fits(ds, |x|) && KeepsAll(ds, x) && v < |x| && q < |ds| && Epigraph(ds, gs, v, lo, hi)
    requires (forall k :: 0 <= k < |gs| ==> gs[k] < |x|) && Allows(x, gs, lo, hi, p)
    ensures KeepsAt(ds, q, x[v := p])
  {
    var d := ds[q];
    assert KeepsAt(ds, q, x) && d in ds && RowOrMisses(d, gs, v);
    VariableBelow(ds, q);
    if d.Variable? {
      if Variables(ds[..q]) == v {
        assert Declares(ds, q, v);
      }
    } else if !d.Linear? {
      if k :| 0 <= k < |gs| && d == Below(gs[k], v) {
        DotPair(gs[k], v, x[v := p]);
      } else {
        DotUntouched(d.terms, x, v, p);
      }
    }
  }

  lemma KeepingAllows(ds: seq<Declaration>, x: Point, gs: seq<nat>, v: nat, lo: real, hi: Option<real>)
    requires Fits(ds, |x|) && KeepsAll(ds, x) && v < |x| && Epigraph(ds, gs, v, lo, hi)
    requires forall k :: 0 <= k < |gs| ==> gs[k] < |x|
    ensures Allows(x, gs, lo, hi, x[v])
  {
    var q :| Declares(ds, q, v);
    assert KeepsAt(ds, q, x);
    forall k | 0 <= k < |gs|
      ensures x[gs[k]] <= x[v]
    {
      var r :| 0 <= r < |ds| && ds[r] == Below(gs[k], v);
      assert KeepsAt(ds, r, x);
      DotPair(gs[k], v, x);
    }
  }

  // The peaks a feasible point can be given are exactly those within the bounds and above every one of the gs.
  lemma PeakIsEpigraph(ds: seq<Declaration>, x: Point, gs: seq<nat>, v: nat, lo: real, hi: Option<real>, p: real)
    requires Fits(ds, |x|) && KeepsAll(ds, x) && v < |x| && Epigraph(ds, gs, v, lo, hi)
    requires forall k :: 0 <= k < |gs| ==> gs[k] < |x|
    ensures KeepsAll(ds, x[v := p]) <==> Allows(x, gs, lo, hi, p)
  {
    var x' := x[v := p];
    if Allows(x, gs, lo, hi, p) {
      forall q | 0 <= q < |ds|
        ensures KeepsAt(ds, q, x')
      {
        KeepsWithPeak(ds, q, x, gs, v, lo, hi, p);
      }
    }
    if KeepsAll(ds, x') {
      KeepingAllows(ds, x', gs, v, lo, hi);
    }
  }

  // The highest of the gs and the floor.
  function Highest(x: Point, gs: seq<nat>, lo: real): real
    requires forall k :: 0 <= k < |gs| ==> gs[k] < |x|
  {
    if gs == [] then lo else Max(Highest(x, gs[..|gs| - 1], lo), x[gs[|gs| - 1]])
  }

  lemma {:induction false} HighestIsAbove(x: Point, gs: seq<nat>, lo: real)
    requires forall k :: 0 <= k < |gs| ==> gs[k] < |x|
    ensures Highest(x, gs, lo) >= lo && forall k :: 0 <= k < |gs| ==> x[gs[k]] <= Highest(x, gs, lo)
    decreases |gs|
  {
    if gs != [] {
      HighestIsAbove(x, gs[..|gs| - 1], lo);
    }
  }

  lemma {:induction false} HighestIsLeast(x: Point, gs: seq<nat>, lo: real, p: real)
    requires (forall k :: 0 <= k < |gs| ==> gs[k] < |x|) && p >= lo && forall k :: 0 <= k < |gs| ==> x[gs[k]] <= p
    ensures Highest(x, gs, lo) <= p
    decreases |gs|
  {
    if gs != [] {
      HighestIsLeast(x, gs[..|gs| - 1], lo, p);
    }
  }

  lemma AllowsFromTheHighest(x: Point, gs: seq<nat>, lo: real, hi: Option<real>, p: real)
    requires forall k :: 0 <= k < |gs| ==> gs[k] < |x|
    ensures Allows(x, gs, lo, hi, p) <==> Highest(x, gs, lo) <= p && (hi.Some? ==> p <= hi.value)
  {
    HighestIsAbove(x, gs, lo);
    if Allows(x, gs, lo, hi, p) {
      HighestIsLeast(x, gs, lo, p);
    }
  }

  // The peaks a feasible point can be given are exactly those from the highest of the floor and the gs to the limit.
  lemma PeakRange(ds: seq<Declaration>, x: Point, gs: seq<nat>, v: nat, lo: real, hi: Option<real>, p: real)
    requires Fits(ds, |x|) && KeepsAll(ds, x) && v < |x| && Epigraph(ds, gs, v, lo, hi)
    requires forall k :: 0 <= k < |gs| ==> gs[k] < |x|
    ensures KeepsAll(ds, x[v := p]) <==> Highest(x, gs, lo) <= p && (hi.Some? ==> p <= hi.value)
    ensures hi.Some? ==> Highest(x, gs, lo) <= hi.value
  {
    PeakIsEpigraph(ds, x, gs, v, lo, hi, p);
    AllowsFromTheHighest(x, gs, lo, hi, p);
    KeepingAllows(ds, x, gs, v, lo, hi);
    AllowsFromTheHighest(x, gs, lo, hi, x[v]);
  }

  // ---------------------------------------------------------------- the plan's peak

  lemma ScopedMisses(d: Declaration, n: nat, v: nat)
    requires Scoped(d, n) && v >= n
    ensures Misses(d, v)
  {
  }

  lemma {:induction false} PeakRowStands(inp: Input, n: nat, k: nat)
    requires inp.Checked() && k < n <= inp.Steps()
    ensures Below(inp.At(k), inp.PeakAt()) in inp.PeakRows(n)
  {
    if k < n - 1 {
      PeakRowStands(inp, n - 1, k);
    }
  }

  lemma CallIsRowOrMisses(inp: Input, d: Declaration)
    requires inp.Checked() && inp.demand.Some? && d in inp.Calls()
    ensures RowOrMisses(d, Imports(inp), inp.PeakAt())
  {
    if d in inp.FirstSteps(inp.Steps()) {
      StepsAreScoped(inp, d);
      ScopedMisses(d, inp.UnmetAt(), inp.PeakAt());
    } else if d in inp.UnmetCalls(|inp.evs|) {
      UnmetMissesGrid(inp, |inp.evs|, 0, d);
      ScopedMisses(d, inp.PeakAt(), inp.PeakAt());
    } else if d in inp.PeakCalls() {
      if d in inp.PeakRows(inp.Steps()) {
        var m := PeakRowIs(inp, inp.Steps(), d);
        assert d == Below(Imports(inp)[m], inp.PeakAt());
      }
    } else {
      assert d in inp.TerminalCalls();
    }
  }

  // Only one call makes a variable.
  lemma MadeOnce(ds: seq<Declaration>, p: nat, q: nat)
    requires p < q < |ds| && ds[p].Variable?
    ensures Variables(ds[..p]) < Variables(ds[..q])
  {
    assert ds[..q][..p] == ds[..p];
    VariableBelow(ds[..q], p);
  }

  lemma DeclaredOnce(ds: seq<Declaration>, p: nat, q: nat, v: nat)
    requires Declares(ds, p, v) && Declares(ds, q, v)
    ensures p == q
  {
    if p < q {
      MadeOnce(ds, p, q);
    } else if q < p {
      MadeOnce(ds, q, p);
    }
  }

  lemma EpigraphOf(ds: seq<Declaration>, gs: seq<nat>, p: nat, v: nat, lo: real, hi: Option<real>)
    requires forall k :: 0 <= k < |gs| ==> gs[k] != v && Below(gs[k], v) in ds
    requires forall d :: d in ds ==> RowOrMisses(d, gs, v)
    requires Declares(ds, p, v) && ds[p] == Variable(Some(lo), hi)
    ensures Epigraph(ds, gs, v, lo, hi)
  {
    forall q | Declares(ds, q, v)
      ensures ds[q] == Variable(Some(lo), hi)
    {
      DeclaredOnce(ds, p, q, v);
    }
  }

  lemma ImportIsBelow(inp: Input, k: nat)
    requires inp.Checked() && inp.demand.Some? && k < inp.Steps()
    ensures inp.At(k) != inp.PeakAt() && Below(inp.At(k), inp.PeakAt()) in inp.Calls()
  {
    GridIsBelow(inp, k);
    PeakRowStands(inp, inp.Steps(), k);
    assert Below(inp.At(k), inp.PeakAt()) in inp.PeakCalls();
  }

  lemma PeakStands(inp: Input) returns (p: nat)
    requires inp.Checked() && inp.demand.Some?
    ensures Declares(inp.Calls(), p, inp.PeakAt()) && inp.Calls()[p] == Variable(Some(inp.PeakFloor()), inp.PeakLimit())
  {
    var before := inp.FirstSteps(inp.Steps()) + inp.UnmetCalls(|inp.evs|);
    CountsSteps(inp, inp.Steps());
    UnmetIsPlaced(inp, |inp.evs|, inp.UnmetCalls(|inp.evs|), inp.UnmetAt());
    VariablesAppend(inp.FirstSteps(inp.Steps()), inp.UnmetCalls(|inp.evs|));
    p := |before|;
    InFront(before, inp.PeakCalls(), inp.TerminalCalls());
  }

  lemma InFront(a: seq<Declaration>, b: seq<Declaration>, c: seq<Declaration>)
    requires b != []
    ensures (a + b + c)[|a|] == b[0] && (a + b + c)[..|a|] == a
  {
  }

  lemma PlanIsEpigraph(inp: Input)
    requires inp.Checked() && inp.demand.Some?
    ensures Epigraph(inp.Calls(), Imports(inp), inp.PeakAt(), inp.PeakFloor(), inp.PeakLimit())
  {
    var ds, gs, v := inp.Calls(), Imports(inp), inp.PeakAt();
    forall k | 0 <= k < |gs|
      ensures gs[k] != v && Below(gs[k], v) in ds
    {
      ImportIsBelow(inp, k);
    }
    forall d | d in ds
      ensures RowOrMisses(d, gs, v)
    {
      CallIsRowOrMisses(inp, d);
    }
    var p := PeakStands(inp);
    EpigraphOf(ds, gs, p, v, inp.PeakFloor(), inp.PeakLimit());
  }

  // The peaks the solver can give a plan start at the highest of what the period has billed and every import, so the
  // demand charge is exactly a charge on that.
  lemma DemandChargeIsExact(inp: Input, ds: seq<Declaration>, gs: seq<nat>, x: Point, p: real) returns (peak: real)
    requires inp.Checked() && inp.demand.Some? && ds == inp.Calls() && gs == Imports(inp)
    requires Sound(ds) && Variables(ds) == |x| && SolverFeasible(Build(ds), x)
    ensures inp.PeakAt() < |x| && forall k :: 0 <= k < |gs| ==> gs[k] < |x|
    ensures peak == Highest(x, gs, inp.PeakFloor()) && (inp.PeakLimit().Some? ==> peak <= inp.PeakLimit().value)
    ensures SolverFeasible(Build(ds), x[inp.PeakAt() := p])
            <==> peak <= p && (inp.PeakLimit().Some? ==> p <= inp.PeakLimit().value)
  {
    CallsFit(inp);
    forall k | 0 <= k < |gs|
      ensures gs[k] < |x|
    {
      GridIsBelow(inp, k);
    }
    PlanIsEpigraph(inp);
    peak := SolverPeak(ds, x, gs, inp.PeakAt(), inp.PeakFloor(), inp.PeakLimit(), p);
  }

  lemma SolverPeak(ds: seq<Declaration>, x: Point, gs: seq<nat>, v: nat, lo: real, hi: Option<real>, p: real)
    returns (peak: real)
    requires Fits(ds, |x|) && Variables(ds) == |x| && SolverFeasible(Build(ds), x) && v < |x|
    requires Epigraph(ds, gs, v, lo, hi) && forall k :: 0 <= k < |gs| ==> gs[k] < |x|
    ensures peak == Highest(x, gs, lo) && (hi.Some? ==> peak <= hi.value)
    ensures SolverFeasible(Build(ds), x[v := p]) <==> peak <= p && (hi.Some? ==> p <= hi.value)
  {
    ProgramMeansDeclarations(ds, x);
    ProgramMeansDeclarations(ds, x[v := p]);
    PeakRange(ds, x, gs, v, lo, hi, p);
    peak := Highest(x, gs, lo);
  }

  // ---------------------------------------------------------------- the peak of an optimal plan

  // y keeps everything declared, and costs less.
  ghost predicate Undercuts(ds: seq<Declaration>, y: Point, x: Point)
    requires Fits(ds, |x|)
  {
    |y| == |x| && KeepsAll(ds, y) && DeclaredCost(ds, y) < DeclaredCost(ds, x)
  }

  ghost predicate Optimal(ds: seq<Declaration>, x: Point) {
    Fits(ds, |x|) && KeepsAll(ds, x) && forall y: Point :: !Undercuts(ds, y, x)
  }

  // The same of the assembled program.
  ghost predicate Beats(ds: seq<Declaration>, y: Point, x: Point)
    requires Fits(ds, |x|) && Variables(ds) == |x|
  {
    |y| == |x| && SolverFeasible(Build(ds), y) && Objective(Build(ds), y) < Objective(Build(ds), x)
  }

  lemma BeatsIfUndercuts(ds: seq<Declaration>, y: Point, x: Point)
    requires Fits(ds, |x|) && Variables(ds) == |x|
    ensures Beats(ds, y, x) <==> Undercuts(ds, y, x)
  {
    if |y| == |x| {
      ProgramMeansDeclarations(ds, y);
      ProgramMeansDeclarations(ds, x);
    }
  }

  // So optimal points are what a solver of the assembled program looks for.
  lemma OptimalSolves(ds: seq<Declaration>, x: Point)
    requires Fits(ds, |x|) && Variables(ds) == |x|
    ensures Optimal(ds, x) <==> SolverFeasible(Build(ds), x) && forall y: Point :: !Beats(ds, y, x)
  {
    ProgramMeansDeclarations(ds, x);
    forall y: Point
      ensures Beats(ds, y, x) <==> Undercuts(ds, y, x)
    {
      BeatsIfUndercuts(ds, y, x);
    }
  }

  lemma ScopedHasNoPrice(ds: seq<Declaration>, n: nat, v: nat)
    requires v >= n && forall d :: d in ds ==> Scoped(d, n)
    ensures PriceOf(ds, v) == 0.0
  {
    forall d | d in ds
      ensures LinearPrice(d, v) == 0.0
    {
    }
    PriceElsewhere(ds, v);
  }

  lemma PriceOfPeakCalls(inp: Input)
    requires inp.Checked() && inp.demand.Some?
    ensures PriceOf(inp.PeakCalls(), inp.PeakAt()) == inp.demand.value.eurPerKw
  {
    var v := inp.PeakAt();
    var pair := [Variable(Some(inp.PeakFloor()), inp.PeakLimit()), Linear(v, inp.demand.value.eurPerKw)];
    PriceAppend(pair, inp.PeakRows(inp.Steps()), v);
    RowsHaveNoPrice(inp, inp.Steps(), v);
    LastPrice(pair, v);
    LastPrice(pair[..1], v);
    PriceElsewhere(pair[..1][..0], v);
  }

  lemma {:induction false} RowsHaveNoPrice(inp: Input, n: nat, v: nat)
    requires inp.Checked() && n <= inp.Steps()
    ensures PriceOf(inp.PeakRows(n), v) == 0.0
  {
    if n > 0 {
      var row := [Below(inp.At(n - 1), inp.PeakAt())];
      RowsHaveNoPrice(inp, n - 1, v);
      PriceElsewhere(row, v);
      PriceAppend(inp.PeakRows(n - 1), row, v);
    } else {
      PriceElsewhere(inp.PeakRows(0), v);
    }
  }

  lemma PriceOfPeak(inp: Input)
    requires inp.Checked() && inp.demand.Some?
    ensures PriceOf(inp.Calls(), inp.PeakAt()) == inp.demand.value.eurPerKw
  {
    var v := inp.PeakAt();
    var steps, unmet := inp.FirstSteps(inp.Steps()), inp.UnmetCalls(|inp.evs|);
    StepsHaveNoPrice(inp, v);
    UnmetHasNoPrice(inp, v);
    PriceOfPeakCalls(inp);
    LastHasNoPrice(inp, v);
    PriceAppend(steps, unmet, v);
    PriceAppend(steps + unmet, inp.PeakCalls(), v);
    PriceAppend(steps + unmet + inp.PeakCalls(), inp.TerminalCalls(), v);
  }

  lemma StepsHaveNoPrice(inp: Input, v: nat)
    requires inp.Checked() && v >= inp.UnmetAt()
    ensures PriceOf(inp.FirstSteps(inp.Steps()), v) == 0.0
  {
    var ds := inp.FirstSteps(inp.Steps());
    forall d | d in ds
      ensures Scoped(d, inp.UnmetAt())
    {
      StepsAreScoped(inp, d);
    }
    ScopedHasNoPrice(ds, inp.UnmetAt(), v);
  }

  lemma UnmetHasNoPrice(inp: Input, v: nat)
    requires inp.Checked() && v >= inp.PeakAt()
    ensures PriceOf(inp.UnmetCalls(|inp.evs|), v) == 0.0
  {
    var ds := inp.UnmetCalls(|inp.evs|);
    forall d | d in ds
      ensures Scoped(d, inp.PeakAt())
    {
      UnmetMissesGrid(inp, |inp.evs|, 0, d);
    }
    ScopedHasNoPrice(ds, inp.PeakAt(), v);
  }

  lemma LastHasNoPrice(inp: Input, v: nat)
    requires inp.Checked() && v >= inp.UnmetAt()
    ensures PriceOf(inp.TerminalCalls(), v) == 0.0
  {
    var ds := inp.TerminalCalls();
    forall d | d in ds
      ensures Scoped(d, inp.UnmetAt())
    {
      TerminalIsScoped(inp, d);
    }
    ScopedHasNoPrice(ds, inp.UnmetAt(), v);
  }

  // A variable of this shape with a price is as low as it may be.
  lemma OptimalIsLowest(ds: seq<Declaration>, x: Point, gs: seq<nat>, v: nat, lo: real, hi: Option<real>)
    requires Optimal(ds, x) && v < |x| && Epigraph(ds, gs, v, lo, hi) && PriceOf(ds, v) > 0.0
    requires forall k :: 0 <= k < |gs| ==> gs[k] < |x|
    ensures x[v] == Highest(x, gs, lo)
  {
    var low := Highest(x, gs, lo);
    assert x[v := x[v]] == x;
    PeakRange(ds, x, gs, v, lo, hi, x[v]);
    PeakRange(ds, x, gs, v, lo, hi, low);
    LoweredCost(ds, x, gs, v, lo, hi, low);
    assert !Undercuts(ds, x[v := low], x);
  }

  lemma LoweredCost(ds: seq<Declaration>, x: Point, gs: seq<nat>, v: nat, lo: real, hi: Option<real>, p: real)
    requires Fits(ds, |x|) && v < |x| && Epigraph(ds, gs, v, lo, hi) && PriceOf(ds, v) > 0.0
    ensures p < x[v] ==> DeclaredCost(ds, x[v := p]) < DeclaredCost(ds, x)
  {
    forall d | d in ds
      ensures NotSquared(d, v)
    {
      assert RowOrMisses(d, gs, v);
      if d.Squared? {
        CoefWithout(d.terms, v);
      }
    }
    DeclaredCostMoved(ds, x, v, p - x[v]);
    assert Moved(x, v, p - x[v]) == x[v := p];
    Lowers(p - x[v], PriceOf(ds, v));
  }

  lemma Lowers(amount: real, price: real)
    requires price > 0.0
    ensures amount < 0.0 ==> Weighted(amount, price) < 0.0
  {
  }

  // With a demand charge, the peak of every optimal plan is the highest of what is billed already and every import.
  lemma OptimalPeakIsHighest(inp: Input, ds: seq<Declaration>, gs: seq<nat>, x: Point)
    requires inp.Checked() && inp.demand.Some? && inp.demand.value.eurPerKw > 0.0
    requires ds == inp.Calls() && gs == Imports(inp) && |x| == inp.Total() && Optimal(ds, x)
    ensures inp.PeakAt() < |x| && forall k :: 0 <= k < |gs| ==> gs[k] < |x|
    ensures x[inp.PeakAt()] == Highest(x, gs, inp.PeakFloor())
  {
    PlanIsEpigraph(inp);
    PriceOfPeak(inp);
    forall k | 0 <= k < |gs|
      ensures gs[k] < |x|
    {
      GridIsBelow(inp, k);
    }
    OptimalIsLowest(ds, x, gs, inp.PeakAt(), inp.PeakFloor(), inp.PeakLimit());
  }
}
