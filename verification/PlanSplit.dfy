// The split of the grid power into import and export is exact (crates/planner/src/model.rs:309-311 and 345-357):
// a plan that does both in a step can be turned into one that never does, for no more money.
module PlanSplit {
  import opened Basics
  import opened Qps
  import opened Declared
  import opened Plans
  import opened PlanBuild
  import opened Moves
  import opened Blocks
  import opened PlanShape
  import opened PlanSound
  import opened Splitting

  // ---------------------------------------------------------------- every call bears it

  lemma PairCoef(a: nat, c: real, b: nat, d: real, v: nat)
    ensures Coef([(a, c), (b, d)], v) == (if a == v then c else 0.0) + (if b == v then d else 0.0)
  {
    var none: Terms := [];
    CoefSnoc(none, (a, c), v);
    CoefSnoc([(a, c)], (b, d), v);
    assert none + [(a, c)] == [(a, c)] && [(a, c)] + [(b, d)] == [(a, c), (b, d)];
    CoefWithout(none, v);
  }

  // One up and one down: lowering both keeps the balance, of this step or another.
  lemma BalanceCoefs(g: nat, i: nat, local: Terms)
    requires Without(local, i) && Without(local, i + 1)
    requires g == i || g + 3 <= i || i + 3 <= g
    ensures Coef([(g, 1.0), (g + 1, -1.0)] + local, i) + Coef([(g, 1.0), (g + 1, -1.0)] + local, i + 1) == 0.0
  {
    var pair: Terms := [(g, 1.0), (g + 1, -1.0)];
    CoefWithout(local, i);
    CoefWithout(local, i + 1);
    CoefAppend(pair, local, i);
    CoefAppend(pair, local, i + 1);
    PairCoef(g, 1.0, g + 1, -1.0, i);
    PairCoef(g, 1.0, g + 1, -1.0, i + 1);
  }

  lemma BalanceIsBorne(inp: Input, m: nat, k: nat, local: Terms)
    requires inp.Checked() && m < inp.Steps() && k < inp.Steps() && NearTerms(inp, m, local)
    ensures Bears(inp.BalanceCall(m, local), inp.At(k), inp.At(k) + 1)
  {
    NearTermsMissGrid(inp, m, local, k);
    GridsApart(inp, m, k);
    BearsBalance(inp.At(m), inp.At(k), local, inp.f.baseKw[m]);
  }

  lemma BearsBalance(g: nat, i: nat, local: Terms, rhs: real)
    requires Without(local, i) && Without(local, i + 1)
    requires g == i || g + 3 <= i || i + 3 <= g
    ensures Bears(Equal([(g, 1.0), (g + 1, -1.0)] + local, rhs), i, i + 1)
  {
    BalanceCoefs(g, i, local);
  }

  lemma GridsApart(inp: Input, m: nat, k: nat)
    requires inp.Checked() && m < inp.Steps() && k < inp.Steps()
    ensures m == k || inp.At(m) + 3 <= inp.At(k) || inp.At(k) + 3 <= inp.At(m)
  {
    if m < k {
      AtGrows(inp, m, k);
    } else if k < m {
      AtGrows(inp, k, m);
    }
  }

  // A step is its grid power, what belongs to its devices, its balance, and its dimming.
  lemma StepIs(inp: Input, m: nat)
    returns (grid: seq<Declaration>, devices: seq<Declaration>, local: Terms, dimmed: seq<Declaration>)
    requires inp.Checked() && m < inp.Steps()
    ensures inp.StepCalls(m) == grid + devices + [inp.BalanceCall(m, local)] + dimmed && grid == inp.GridCalls(m)
    ensures AllLocal(inp, m, devices) && NearTerms(inp, m, local) && AllLocal(inp, m, dimmed)
    ensures Variables(grid) == 3 && Variables(grid) + Variables(devices) == inp.At(m + 1) - inp.At(m)
    ensures Variables(dimmed) == 0
  {
    grid, devices, local, dimmed :=
      inp.GridCalls(m), inp.DeviceCalls(m), inp.LocalTerms(m), inp.DimCalls(m, inp.DimTerms(m));
    DevicesAreLocal(inp, m);
    CountsStep(inp, m);
    CountsDevices(inp, m);
  }

  lemma LocalsAreBorne(inp: Input, m: nat, k: nat, ds: seq<Declaration>)
    requires inp.Checked() && m < inp.Steps() && k < inp.Steps() && AllLocal(inp, m, ds)
    ensures BothBorne(ds, inp.At(k))
  {
    forall d | d in ds
      ensures Bears(d, inp.At(k), inp.At(k) + 1)
    {
      LocalMissesGrid(inp, m, d, k);
      MissingIsBorne(d, inp.At(k), inp.At(k) + 1);
    }
  }

  lemma GridIsBorne(inp: Input, m: nat, i: nat)
    requires inp.Checked() && m < inp.Steps()
    ensures BothBorne(inp.GridCalls(m), i)
  {
  }

  lemma StepIsBorne(inp: Input, m: nat, k: nat)
    requires inp.Checked() && m < inp.Steps() && k < inp.Steps()
    ensures BothBorne(inp.StepCalls(m), inp.At(k))
  {
    var grid, devices, local, dimmed := StepIs(inp, m);
    GridIsBorne(inp, m, inp.At(k));
    LocalsAreBorne(inp, m, k, devices);
    LocalsAreBorne(inp, m, k, dimmed);
    BalanceIsBorne(inp, m, k, local);
    BorneFour(grid, devices, [inp.BalanceCall(m, local)], dimmed, inp.At(k));
  }

  lemma FlatIsBorne(parts: seq<seq<Declaration>>, i: nat)
    requires forall m :: 0 <= m < |parts| ==> BothBorne(parts[m], i)
    ensures BothBorne(Flat(parts), i)
  {
    forall d | d in Flat(parts)
      ensures Bears(d, i, i + 1)
    {
      var m := FlatMembers(parts, d);
    }
  }

  lemma StepsAreBorne(inp: Input, k: nat)
    requires inp.Checked() && k < inp.Steps()
    ensures BothBorne(inp.FirstSteps(inp.Steps()), inp.At(k))
  {
    var parts := inp.StepParts(inp.Steps());
    forall m | 0 <= m < |parts|
      ensures BothBorne(parts[m], inp.At(k))
    {
      StepIsBorne(inp, m, k);
    }
    FlatIsBorne(parts, inp.At(k));
  }

  lemma UnmetIsBorne(inp: Input, k: nat)
    requires inp.Checked() && k < inp.Steps()
    ensures BothBorne(inp.UnmetCalls(|inp.evs|), inp.At(k))
  {
    forall d | d in inp.UnmetCalls(|inp.evs|)
      ensures Bears(d, inp.At(k), inp.At(k) + 1)
    {
      UnmetMissesGrid(inp, |inp.evs|, k, d);
      MissingIsBorne(d, inp.At(k), inp.At(k) + 1);
    }
  }

  lemma PeakIsBorne(inp: Input, k: nat)
    requires inp.Checked() && k < inp.Steps()
    ensures BothBorne(inp.PeakCalls(), inp.At(k))
  {
    forall d | d in inp.PeakCalls()
      ensures Bears(d, inp.At(k), inp.At(k) + 1)
    {
      if d in inp.PeakRows(inp.Steps()) {
        var m := PeakRowIs(inp, inp.Steps(), d);
        PairCoef(inp.At(m), 1.0, inp.PeakAt(), -1.0, inp.At(k));
        PairCoef(inp.At(m), 1.0, inp.PeakAt(), -1.0, inp.At(k) + 1);
        GridIsBelow(inp, k);
        GridsApart(inp, m, k);
      }
    }
  }

  lemma CallsAreBorne(inp: Input, k: nat)
    requires inp.Checked() && k < inp.Steps()
    ensures BothBorne(inp.Calls(), inp.At(k))
  {
    StepsAreBorne(inp, k);
    UnmetIsBorne(inp, k);
    PeakIsBorne(inp, k);
    BorneFour(inp.FirstSteps(inp.Steps()), inp.UnmetCalls(|inp.evs|), inp.PeakCalls(), inp.TerminalCalls(), inp.At(k));
  }

  // ---------------------------------------------------------------- both powers may go down to zero

  lemma GridGoesDown(inp: Input, m: nat, start: nat, v: nat)
    requires inp.Checked() && m < inp.Steps()
    ensures DownFrom(inp.GridCalls(m), start, v)
  {
  }

  lemma StepGoesDown(inp: Input, m: nat, v: nat)
    requires inp.Checked() && m < inp.Steps() && (v < inp.At(m) + 3 || v >= inp.At(m + 1))
    ensures DownFrom(inp.StepCalls(m), inp.At(m), v)
  {
    var grid, devices, local, dimmed := StepIs(inp, m);
    GridGoesDown(inp, m, inp.At(m), v);
    FrontGoesDown(grid, devices, [inp.BalanceCall(m, local)], dimmed, inp.At(m), v);
  }

  // What comes behind does not make the variable.
  lemma FrontGoesDown(a: seq<Declaration>, b: seq<Declaration>, c: seq<Declaration>, d: seq<Declaration>, start: nat,
                      v: nat)
    requires DownFrom(a, start, v)
    requires v < start + Variables(a) || v >= start + Variables(a) + Variables(b) + Variables(c) + Variables(d)
    ensures DownFrom(a + b + c + d, start, v)
  {
    VariablesAppend(a, b);
    VariablesAppend(a + b, c);
    DownElsewhere(b, start + Variables(a), v);
    DownElsewhere(c, start + Variables(a) + Variables(b), v);
    DownElsewhere(d, start + Variables(a) + Variables(b) + Variables(c), v);
    DownAppend(a, b, start, v);
    DownAppend(a + b, c, start, v);
    DownAppend(a + b + c, d, start, v);
  }

  lemma StepsGoDown(inp: Input, k: nat, v: nat)
    requires inp.Checked() && k < inp.Steps() && (v == inp.At(k) || v == inp.At(k) + 1)
    ensures DownFrom(inp.FirstSteps(inp.Steps()), 0, v)
  {
    var n := inp.Steps();
    StepsAreNumbered(inp, n);
    forall m | 0 <= m < n
      ensures DownFrom(inp.StepParts(n)[m], Numbers(inp, n)[m], v)
    {
      OutsideTheDevices(inp, m, k, v);
      StepGoesDown(inp, m, v);
    }
    FlatDown(inp.StepParts(n), Numbers(inp, n), v);
  }

  lemma OutsideTheDevices(inp: Input, m: nat, k: nat, v: nat)
    requires inp.Checked() && m < inp.Steps() && k < inp.Steps() && (v == inp.At(k) || v == inp.At(k) + 1)
    ensures v < inp.At(m) + 3 || v >= inp.At(m + 1)
  {
    if k < m {
      AtGrows(inp, k, m);
    } else if m + 1 < k {
      AtGrows(inp, m + 1, k);
    }
  }

  lemma CallsGoDown(inp: Input, k: nat, v: nat)
    requires inp.Checked() && k < inp.Steps() && (v == inp.At(k) || v == inp.At(k) + 1)
    ensures DownToZero(inp.Calls(), v)
  {
    StepsGoDown(inp, k, v);
    CountsSteps(inp, inp.Steps());
    GridIsBelow(inp, k);
    FrontGoesDown(inp.FirstSteps(inp.Steps()), inp.UnmetCalls(|inp.evs|), inp.PeakCalls(), inp.TerminalCalls(), 0, v);
    DownFromTheStart(inp.Calls(), v);
  }

  lemma DownFromTheStart(ds: seq<Declaration>, v: nat)
    requires DownFrom(ds, 0, v)
    ensures DownToZero(ds, v)
  {
    forall k | 0 <= k < |ds| && ds[k].Variable? && Variables(ds[..k]) == v
      ensures ds[k].lo.Some? ==> ds[k].lo.value <= 0.0
    {
      assert DownAt(ds[k]);
    }
  }

  // ---------------------------------------------------------------- together they cost nothing less than zero

  lemma PriceOfSix(ds: seq<Declaration>, v: nat)
    requires |ds| == 6
    ensures PriceOf(ds, v) == LinearPrice(ds[0], v) + LinearPrice(ds[1], v) + LinearPrice(ds[2], v)
                              + LinearPrice(ds[3], v) + LinearPrice(ds[4], v) + LinearPrice(ds[5], v)
  {
    assert ds[..6] == ds && ds[..6][..5] == ds[..5] && ds[..5][..4] == ds[..4] && ds[..4][..3] == ds[..3];
    assert ds[..3][..2] == ds[..2] && ds[..2][..1] == ds[..1] && ds[..1][..0] == [];
    LastPrice(ds, v);
    LastPrice(ds[..5], v);
    LastPrice(ds[..4], v);
    LastPrice(ds[..3], v);
    LastPrice(ds[..2], v);
    LastPrice(ds[..1], v);
  }

  lemma GridPrice(inp: Input, m: nat, v: nat)
    requires inp.Checked() && m < inp.Steps()
    ensures v == inp.At(m) ==> PriceOf(inp.GridCalls(m), v) == inp.ImportEur(m)
    ensures v == inp.At(m) + 1 ==> PriceOf(inp.GridCalls(m), v) == inp.ExportEur(m)
    ensures v < inp.At(m) || v > inp.At(m) + 2 ==> PriceOf(inp.GridCalls(m), v) == 0.0
  {
    PriceOfSix(inp.GridCalls(m), v);
  }

  lemma LocalsHaveNoPrice(inp: Input, m: nat, ds: seq<Declaration>, k: nat, v: nat)
    requires inp.Checked() && m < inp.Steps() && k < inp.Steps() && (v == inp.At(k) || v == inp.At(k) + 1)
    requires AllLocal(inp, m, ds)
    ensures PriceOf(ds, v) == 0.0
  {
    forall d | d in ds
      ensures Misses(d, v)
    {
      LocalMissesGrid(inp, m, d, k);
    }
    MissingHasNoPrice(ds, v);
  }

  lemma PriceOfFour(a: seq<Declaration>, b: seq<Declaration>, c: seq<Declaration>, d: seq<Declaration>, v: nat)
    ensures PriceOf(a + b + c + d, v) == PriceOf(a, v) + PriceOf(b, v) + PriceOf(c, v) + PriceOf(d, v)
  {
    PriceAppend(a, b, v);
    PriceAppend(a + b, c, v);
    PriceAppend(a + b + c, d, v);
  }

  lemma StepPrice(inp: Input, m: nat, k: nat, v: nat)
    requires inp.Checked() && m < inp.Steps() && k < inp.Steps() && (v == inp.At(k) || v == inp.At(k) + 1)
    ensures PriceOf(inp.StepCalls(m), v) == PriceOf(inp.GridCalls(m), v)
  {
    var grid, devices, local, dimmed := StepIs(inp, m);
    LocalsHaveNoPrice(inp, m, devices, k, v);
    LocalsHaveNoPrice(inp, m, dimmed, k, v);
    PriceElsewhere([inp.BalanceCall(m, local)], v);
    PriceOfFour(grid, devices, [inp.BalanceCall(m, local)], dimmed, v);
  }

  lemma StepsPrice(inp: Input, k: nat, v: nat)
    requires inp.Checked() && k < inp.Steps() && (v == inp.At(k) || v == inp.At(k) + 1)
    ensures PriceOf(inp.FirstSteps(inp.Steps()), v) == PriceOf(inp.GridCalls(k), v)
  {
    var n := inp.Steps();
    forall m | 0 <= m < n && m != k
      ensures PriceOf(inp.StepParts(n)[m], v) == 0.0
    {
      StepPrice(inp, m, k, v);
      GridPrice(inp, m, v);
      GridsApart(inp, m, k);
    }
    FlatPrice(inp.StepParts(n), v, k);
    StepPrice(inp, k, k, v);
  }

  lemma UnmetPrice(inp: Input, k: nat, v: nat)
    requires inp.Checked() && k < inp.Steps() && (v == inp.At(k) || v == inp.At(k) + 1)
    ensures PriceOf(inp.UnmetCalls(|inp.evs|), v) == 0.0
  {
    forall d | d in inp.UnmetCalls(|inp.evs|)
      ensures Misses(d, v)
    {
      UnmetMissesGrid(inp, |inp.evs|, k, d);
    }
    MissingHasNoPrice(inp.UnmetCalls(|inp.evs|), v);
  }

  lemma PeakPrice(inp: Input, v: nat)
    requires inp.Checked() && v < inp.UnmetAt()
    ensures PriceOf(inp.PeakCalls(), v) == 0.0
  {
    forall d | d in inp.PeakCalls()
      ensures LinearPrice(d, v) == 0.0
    {
      if d in inp.PeakRows(inp.Steps()) {
        var m := PeakRowIs(inp, inp.Steps(), d);
      }
    }
    PriceElsewhere(inp.PeakCalls(), v);
  }

  lemma TerminalPrice(inp: Input, k: nat, v: nat)
    requires inp.Checked() && k < inp.Steps() && (v == inp.At(k) || v == inp.At(k) + 1)
    ensures PriceOf(inp.TerminalCalls(), v) == 0.0
  {
    if inp.battery.Some? {
      NearIsNotGrid(inp, inp.Steps() - 1, inp.At(inp.Steps() - 1) + 5, k);
    }
    PriceElsewhere(inp.TerminalCalls(), v);
  }

  lemma PriceOfCalls(inp: Input, k: nat, v: nat)
    requires inp.Checked() && k < inp.Steps() && (v == inp.At(k) || v == inp.At(k) + 1)
    ensures PriceOf(inp.Calls(), v) == if v == inp.At(k) then inp.ImportEur(k) else inp.ExportEur(k)
  {
    StepsPrice(inp, k, v);
    GridPrice(inp, k, v);
    UnmetPrice(inp, k, v);
    GridIsBelow(inp, k);
    PeakPrice(inp, v);
    TerminalPrice(inp, k, v);
    PriceOfFour(inp.FirstSteps(inp.Steps()), inp.UnmetCalls(|inp.evs|), inp.PeakCalls(), inp.TerminalCalls(), v);
  }

  // Import never costs less than export brings.
  lemma ImportCostsMore(inp: Input, k: nat)
    requires inp.Checked() && k < inp.Steps()
    ensures inp.ImportEur(k) + inp.ExportEur(k) >= 0.0
  {
    PriceGap(inp.dt, inp.PriceIn(k), inp.f.priceExport[k]);
  }

  lemma PriceGap(dt: real, a: real, b: real)
    requires dt > 0.0 && a >= b
    ensures dt * a + -dt * b >= 0.0
  {
    var gap := a - b;
    assert dt * gap >= 0.0;
    assert dt * gap == dt * a - dt * b;
  }

  // ---------------------------------------------------------------- both start from zero

  lemma GridStartsFromZero(inp: Input, before: seq<Declaration>, k: nat, tail: seq<Declaration>)
    requires inp.Checked() && k < inp.Steps() && Variables(before) == inp.At(k)
    ensures Splitting.FromZero(before + inp.GridCalls(k) + tail, inp.At(k))
    ensures Splitting.FromZero(before + inp.GridCalls(k) + tail, inp.At(k) + 1)
  {
    var grid := inp.GridCalls(k);
    var ds, p := before + grid + tail, |before|;
    assert ds[..p] == before && ds[p] == grid[0] && ds[p + 2] == grid[2];
    assert ds[..p + 2] == before + grid[..2];
    VariablesAppend(before, grid[..2]);
    PrefixesSix(grid);
  }

  // The grid power of step k stands behind the steps before.
  lemma GridSplits(inp: Input, k: nat) returns (tail: seq<Declaration>)
    requires inp.Checked() && k < inp.Steps()
    ensures inp.Calls() == inp.FirstSteps(k) + inp.GridCalls(k) + tail
  {
    var grid, devices, local, dimmed := StepIs(inp, k);
    var rest := StepAmongSteps(inp, k);
    tail := Regroup(inp.FirstSteps(k), grid, devices, [inp.BalanceCall(k, local)], dimmed, rest,
                    inp.UnmetCalls(|inp.evs|), inp.PeakCalls(), inp.TerminalCalls());
  }

  lemma Regroup<T>(a: seq<T>, b: seq<T>, c: seq<T>, d: seq<T>, e: seq<T>, f: seq<T>, g: seq<T>, h: seq<T>, i: seq<T>)
    returns (tail: seq<T>)
    ensures (a + (b + c + d + e) + f) + g + h + i == a + b + tail
  {
    tail := c + d + e + f + g + h + i;
  }

  lemma GridFromZero(inp: Input, k: nat)
    requires inp.Checked() && k < inp.Steps()
    ensures Splitting.FromZero(inp.Calls(), inp.At(k)) && Splitting.FromZero(inp.Calls(), inp.At(k) + 1)
  {
    var tail := GridSplits(inp, k);
    CountsSteps(inp, k);
    GridStartsFromZero(inp, inp.FirstSteps(k), k, tail);
  }

  // ---------------------------------------------------------------- the plan that never does both

  lemma CallsStartFromZero(inp: Input, k: nat)
    requires inp.Checked() && k < inp.Steps()
    ensures BothFromZero(inp.Calls(), inp.At(k)) && inp.At(k) + 1 < inp.Total()
  {
    CallsGoDown(inp, k, inp.At(k));
    CallsGoDown(inp, k, inp.At(k) + 1);
    GridFromZero(inp, k);
    GridIsBelow(inp, k);
    CallsArePlaced(inp);
  }

  lemma PricesOfCalls(inp: Input, k: nat)
    requires inp.Checked() && k < inp.Steps()
    ensures PriceOf(inp.Calls(), inp.At(k)) + PriceOf(inp.Calls(), inp.At(k) + 1) >= 0.0
  {
    PriceOfCalls(inp, k, inp.At(k));
    PriceOfCalls(inp, k, inp.At(k) + 1);
    ImportCostsMore(inp, k);
  }

  // The two grid powers of a step may be netted.
  lemma GridIsSplitSafe(inp: Input, k: nat)
    requires inp.Checked() && k < inp.Steps()
    ensures SplitSafe(inp.Calls(), inp.At(k)) && inp.At(k) + 1 < inp.Total()
  {
    CallsAreBorne(inp, k);
    CallsStartFromZero(inp, k);
    PricesOfCalls(inp, k);
  }

  lemma ImportsAreSplitSafe(inp: Input)
    requires inp.Checked()
    ensures Apart(Imports(inp))
    ensures forall k :: 0 <= k < inp.Steps() ==> SplitSafe(inp.Calls(), Imports(inp)[k]) && Imports(inp)[k] + 1 < inp.Total()
  {
    forall k, l | 0 <= k < l < inp.Steps()
      ensures inp.At(k) + 1 < inp.At(l)
    {
      AtGrows(inp, k, l);
    }
    forall k | 0 <= k < inp.Steps()
      ensures SplitSafe(inp.Calls(), Imports(inp)[k]) && Imports(inp)[k] + 1 < inp.Total()
    {
      GridIsSplitSafe(inp, k);
    }
  }

  // For every point the solver may return there is one with no greater objective that the solver may return as well,
  // with the same net grid power in every step and the same values of everything else, that never imports and
  // exports in the same step.
  lemma NeverBothWays(inp: Input, ds: seq<Declaration>, at: seq<nat>, x: Point) returns (x': Point)
    requires inp.Checked() && ds == inp.Calls() && at == Imports(inp)
    requires Sound(ds) && Variables(ds) == |x| && SolverFeasible(Build(ds), x)
    ensures |x'| == |x| && SolverFeasible(Build(ds), x') && Objective(Build(ds), x') <= Objective(Build(ds), x)
    ensures forall k :: 0 <= k < |at| ==> at[k] + 1 < |x|
    ensures forall k :: 0 <= k < |at| ==>
              Min(x'[at[k]], x'[at[k] + 1]) == 0.0 && x'[at[k]] - x'[at[k] + 1] == x[at[k]] - x[at[k] + 1]
    ensures forall v :: 0 <= v < |x| && Outside(at, v) ==> x'[v] == x[v]
  {
    CallsFit(inp);
    ImportsAreSplitSafe(inp);
    x' := NetTheSplits(ds, x, at);
  }

  lemma NetTheSplits(ds: seq<Declaration>, x: Point, at: seq<nat>) returns (x': Point)
    requires Fits(ds, |x|) && Variables(ds) == |x| && SolverFeasible(Build(ds), x) && Apart(at)
    requires forall k :: 0 <= k < |at| ==> SplitSafe(ds, at[k]) && at[k] + 1 < |x|
    ensures |x'| == |x| && SolverFeasible(Build(ds), x') && Objective(Build(ds), x') <= Objective(Build(ds), x)
    ensures forall k :: 0 <= k < |at| ==>
              Min(x'[at[k]], x'[at[k] + 1]) == 0.0 && x'[at[k]] - x'[at[k] + 1] == x[at[k]] - x[at[k] + 1]
    ensures forall v :: 0 <= v < |x| && Outside(at, v) ==> x'[v] == x[v]
  {
    ProgramMeansDeclarations(ds, x);
    x' := NetAll(ds, x, at, |at|);
    ProgramMeansDeclarations(ds, x');
  }
}
