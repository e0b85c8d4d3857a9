// The planner's program is well-formed: costs are set on variables that exist, and nothing else is mentioned.
module PlanSound {
  import opened Basics
  import opened Qps
  import opened Declared
  import opened Plans
  import opened PlanBuild
  import opened Blocks
  import opened PlanShape
  import opened Moves

  lemma PrefixesSix(ds: seq<Declaration>)
    requires |ds| == 6
    ensures Variables(ds[..0]) == 0
    ensures Variables(ds[..1]) == Variables(ds[..0]) + (if ds[0].Variable? then 1 else 0)
    ensures Variables(ds[..2]) == Variables(ds[..1]) + (if ds[1].Variable? then 1 else 0)
    ensures Variables(ds[..3]) == Variables(ds[..2]) + (if ds[2].Variable? then 1 else 0)
    ensures Variables(ds[..4]) == Variables(ds[..3]) + (if ds[3].Variable? then 1 else 0)
    ensures Variables(ds[..5]) == Variables(ds[..4]) + (if ds[4].Variable? then 1 else 0)
  {
    Taken(ds, 0);
    Taken(ds, 1);
    Taken(ds, 2);
    Taken(ds, 3);
    Taken(ds, 4);
  }

  lemma GridIsPlaced(inp: Input, m: nat)
    requires inp.Checked() && m < inp.Steps()
    ensures Placed(inp.GridCalls(m), inp.At(m))
  {
    PrefixesSix(inp.GridCalls(m));
  }

  lemma PowerIsPlaced(inp: Input, m: nat)
    requires inp.Checked() && m < inp.Steps() && inp.battery.Some?
    ensures Placed(inp.PowerCalls(m), inp.At(m) + 3) && Variables(inp.PowerCalls(m)) == 3
  {
    PrefixesSix(inp.PowerCalls(m));
    CountsSix(inp.PowerCalls(m));
  }

  lemma BandIsPlaced(inp: Input, m: nat)
    requires inp.Checked() && m < inp.Steps() && inp.battery.Some?
    ensures Placed(inp.BandCalls(m), inp.At(m) + 6) && Variables(inp.BandCalls(m)) == 2
  {
    PrefixesSix(inp.BandCalls(m));
    CountsSix(inp.BandCalls(m));
  }

  lemma EnvelopeIsPlaced(inp: Input, m: nat)
    requires inp.Checked() && m < inp.Steps() && inp.battery.Some?
    ensures Placed(inp.EnvelopeCalls(m), inp.At(m) + 8) && Placed(inp.SmoothCalls(m), inp.HeatAt(m))
    ensures Variables(inp.EnvelopeCalls(m)) == inp.BatteryVars(m) - 5
  {
    var ds := inp.EnvelopeCalls(m);
    if inp.Soft(m) {
      CountsThree(ds);
      assert ds[..0] == [];
      Taken(ds, 0);
    }
  }

  lemma StorageIsPlaced(inp: Input, m: nat)
    requires inp.Checked() && m < inp.Steps()
    ensures Placed(inp.StorageCalls(m), inp.At(m) + 3)
  {
    if inp.battery.Some? {
      var power, band, envelope := inp.PowerCalls(m), inp.BandCalls(m), inp.EnvelopeCalls(m);
      PowerIsPlaced(inp, m);
      BandIsPlaced(inp, m);
      EnvelopeIsPlaced(inp, m);
      VariablesAppend(power, band);
      VariablesAppend(power + band, envelope);
      PlacedAppend(power, band, inp.At(m) + 3);
      PlacedAppend(power + band, envelope, inp.At(m) + 3);
      PlacedAppend(power + band + envelope, inp.SmoothCalls(m), inp.At(m) + 3);
    }
  }

  lemma HeatIsPlaced(inp: Input, m: nat)
    requires inp.Checked() && m < inp.Steps()
    ensures Placed(inp.HeatCalls(m), inp.HeatAt(m))
  {
    if inp.heat.Some? {
      PrefixesSix(inp.ComfortCalls(m));
      CountsThree(inp.RoomCalls(m));
      PlacedAppend(inp.RoomCalls(m), inp.ComfortCalls(m), inp.HeatAt(m));
    }
  }

  lemma PairIsPlaced(lo: Option<real>, hi: Option<real>, c: real, start: nat)
    ensures Placed([Variable(lo, hi), Linear(start, c)], start)
  {
    var ds := [Variable(lo, hi), Linear(start, c)];
    assert ds[..0] == [];
    Taken(ds, 0);
  }

  // One more priced variable.
  lemma PlacedPair(ds: seq<Declaration>, start: nat, lo: Option<real>, hi: Option<real>, c: real, i: nat)
    requires Placed(ds, start) && i == start + Variables(ds)
    ensures Placed(ds + [Variable(lo, hi), Linear(i, c)], start)
  {
    PairIsPlaced(lo, hi, c, i);
    PlacedAppend(ds, [Variable(lo, hi), Linear(i, c)], start);
  }

  lemma NextPricedIsPlaced(start: nat, init: seq<real>, top: real, c: real, before: seq<Declaration>)
    requires before == PricedVars(start, init, c) && Placed(before, start)
    ensures Placed(before + [Variable(Some(0.0), Some(top)), Linear(start + |init|, c)], start)
  {
    CountsPriced(start, init, c);
    PlacedPair(before, start, Some(0.0), Some(top), c, start + |init|);
  }

  lemma {:induction false} PricedArePlaced(start: nat, most: seq<real>, c: real)
    ensures Placed(PricedVars(start, most, c), start)
    decreases |most|
  {
    if most != [] {
      var n := |most| - 1;
      PricedArePlaced(start, most[..n], c);
      NextPricedIsPlaced(start, most[..n], most[n], c, PricedVars(start, most[..n], c));
    }
  }

  lemma DevicesArePlaced(inp: Input, m: nat)
    requires inp.Checked() && m < inp.Steps()
    ensures Placed(inp.DeviceCalls(m), inp.At(m) + 3)
  {
    StorageIsPlaced(inp, m);
    HeatIsPlaced(inp, m);
    PricedArePlaced(inp.EvAt(m), inp.MostKws(m, |inp.evs|), inp.LaterEur(m));
    CountsStorage(inp, m);
    CountsHeat(inp, m);
    VariablesAppend(inp.StorageCalls(m), inp.HeatCalls(m));
    PlacedAppend(inp.StorageCalls(m), inp.HeatCalls(m), inp.At(m) + 3);
    PlacedAppend(inp.StorageCalls(m) + inp.HeatCalls(m), inp.EvCalls(m, |inp.evs|), inp.At(m) + 3);
  }

  lemma NoLinearIsPlaced(ds: seq<Declaration>, start: nat)
    requires forall d :: d in ds ==> !d.Linear?
    ensures Placed(ds, start)
  {
    forall k | 0 <= k < |ds|
      ensures !ds[k].Linear?
    {
      assert ds[k] in ds;
    }
  }

  lemma PlacedWithRows(a: seq<Declaration>, b: seq<Declaration>, c: seq<Declaration>, d: seq<Declaration>, start: nat)
    requires Placed(a, start) && Placed(b, start + Variables(a))
    requires forall x :: x in c ==> !x.Linear?
    requires forall x :: x in d ==> !x.Linear?
    ensures Placed(a + b + c + d, start)
  {
    VariablesAppend(a, b);
    PlacedAppend(a, b, start);
    NoLinearIsPlaced(c, start + Variables(a + b));
    PlacedAppend(a + b, c, start);
    NoLinearIsPlaced(d, start + Variables(a + b + c));
    PlacedAppend(a + b + c, d, start);
  }

  lemma StepIsPlaced(inp: Input, m: nat)
    requires inp.Checked() && m < inp.Steps()
    ensures Placed(inp.StepCalls(m), inp.At(m))
  {
    var grid, devices, at := inp.GridCalls(m), inp.DeviceCalls(m), inp.At(m);
    var balance, dimmed := [inp.BalanceCall(m, inp.LocalTerms(m))], inp.DimCalls(m, inp.DimTerms(m));
    GridIsPlaced(inp, m);
    DevicesArePlaced(inp, m);
    PrefixesSix(grid);
    CountsSix(grid);
    PlacedWithRows(grid, devices, balance, dimmed, at);
  }

  // Step k between the steps before and after it.
  lemma StepAmongSteps(inp: Input, k: nat) returns (rest: seq<Declaration>)
    requires inp.Checked() && k < inp.Steps()
    ensures inp.FirstSteps(inp.Steps()) == inp.FirstSteps(k) + inp.StepCalls(k) + rest
  {
    var n := inp.Steps();
    rest := FlatAt(inp.StepParts(n), k);
    assert inp.StepParts(n)[..k] == inp.StepParts(k);
  }

  lemma StepsArePlaced(inp: Input)
    requires inp.Checked()
    ensures Placed(inp.FirstSteps(inp.Steps()), 0)
  {
    var n := inp.Steps();
    var parts, at := inp.StepParts(n), Numbers(inp, n);
    StepsAreNumbered(inp, n);
    forall k | 0 <= k < n
      ensures Placed(parts[k], at[k])
    {
      StepIsPlaced(inp, k);
    }
    FlatPlaced(parts, at);
  }

  lemma TripleIsPlaced(lo: Option<real>, hi: Option<real>, c: real, terms: Terms, rhs: real, u: nat)
    ensures var ds := [Variable(lo, hi), Linear(u, c), AtLeast(terms, rhs)]; Placed(ds, u) && Variables(ds) == 1
  {
    var ds := [Variable(lo, hi), Linear(u, c), AtLeast(terms, rhs)];
    CountsThree(ds);
    assert ds[..0] == [];
    Taken(ds, 0);
  }

  lemma UnmetNext(inp: Input, n: nat) returns (terms: Terms, rhs: real)
    requires inp.Checked() && 0 < n <= |inp.evs|
    ensures var u := inp.UnmetAt() + (n - 1);
      inp.UnmetCalls(n)
      == inp.UnmetCalls(n - 1) + [Variable(Some(0.0), None), Linear(u, inp.w.evUnmet), AtLeast(terms, rhs)]
  {
    terms := inp.ChargedTerms(n - 1, inp.Steps()) + [(inp.UnmetAt() + (n - 1), 1.0)];
    rhs := Max(inp.NeedKwh(n - 1), 0.0);
  }

  // One more car's unmet energy.
  lemma PlacedTriple(ds: seq<Declaration>, start: nat, u: nat, c: real, terms: Terms, rhs: real)
    requires Placed(ds, start) && u == start + Variables(ds)
    ensures var more := [Variable(Some(0.0), None), Linear(u, c), AtLeast(terms, rhs)];
      Placed(ds + more, start) && Variables(ds + more) == Variables(ds) + 1
  {
    var more := [Variable(Some(0.0), None), Linear(u, c), AtLeast(terms, rhs)];
    TripleIsPlaced(Some(0.0), None, c, terms, rhs, u);
    PlacedAppend(ds, more, start);
    VariablesAppend(ds, more);
  }

  lemma NextUnmetIsPlaced(inp: Input, n: nat, before: seq<Declaration>, calls: seq<Declaration>)
    requires inp.Checked() && 0 < n <= |inp.evs| && before == inp.UnmetCalls(n - 1) && calls == inp.UnmetCalls(n)
    requires Placed(before, inp.UnmetAt()) && Variables(before) == n - 1
    ensures Placed(calls, inp.UnmetAt()) && Variables(calls) == n
  {
    var terms, rhs := UnmetNext(inp, n);
    PlacedTriple(before, inp.UnmetAt(), inp.UnmetAt() + (n - 1), inp.w.evUnmet, terms, rhs);
  }

  lemma {:induction false} UnmetIsPlaced(inp: Input, n: nat, calls: seq<Declaration>, start: nat)
    requires inp.Checked() && n <= |inp.evs| && calls == inp.UnmetCalls(n) && start == inp.UnmetAt()
    ensures Placed(calls, start) && Variables(calls) == n
    decreases n
  {
    if n > 0 {
      var before := inp.UnmetCalls(n - 1);
      UnmetIsPlaced(inp, n - 1, before, start);
      NextUnmetIsPlaced(inp, n, before, calls);
    }
  }

  lemma {:induction false} PeakRowsArePlaced(inp: Input, n: nat, start: nat)
    requires inp.Checked() && n <= inp.Steps()
    ensures Placed(inp.PeakRows(n), start) && Variables(inp.PeakRows(n)) == 0
  {
    if n > 0 {
      PeakRowsArePlaced(inp, n - 1, start);
      var row := [AtMost([(inp.At(n - 1), 1.0), (inp.PeakAt(), -1.0)], 0.0)];
      NoLinearIsPlaced(row, start);
      PlacedAppend(inp.PeakRows(n - 1), row, start);
      VariablesAppend(inp.PeakRows(n - 1), row);
    }
  }

  lemma PeakIsPlaced(inp: Input)
    requires inp.Checked()
    ensures Placed(inp.PeakCalls(), inp.PeakAt())
    ensures Variables(inp.PeakCalls()) == if inp.demand.Some? then 1 else 0
  {
    if inp.demand.Some? {
      var lo, hi, c := Some(inp.PeakFloor()), inp.PeakLimit(), inp.demand.value.eurPerKw;
      CountsPair(lo, hi, inp.PeakAt(), c);
      PairIsPlaced(lo, hi, c, inp.PeakAt());
      PeakRowsArePlaced(inp, inp.Steps(), inp.PeakAt() + 1);
      PlacedAppend([Variable(lo, hi), Linear(inp.PeakAt(), c)], inp.PeakRows(inp.Steps()), inp.PeakAt());
      VariablesAppend([Variable(lo, hi), Linear(inp.PeakAt(), c)], inp.PeakRows(inp.Steps()));
    }
  }

  lemma TerminalIsPlaced(inp: Input)
    requires inp.Checked()
    ensures Placed(inp.TerminalCalls(), inp.Total()) && Variables(inp.TerminalCalls()) == 0
  {
    if inp.battery.Some? {
      NearIsNotGrid(inp, inp.Steps() - 1, inp.At(inp.Steps() - 1) + 5, 0);
    }
  }

  lemma PlacedFour(a: seq<Declaration>, b: seq<Declaration>, c: seq<Declaration>, d: seq<Declaration>)
    requires Placed(a, 0) && Placed(b, Variables(a)) && Placed(c, Variables(a) + Variables(b))
    requires Placed(d, Variables(a) + Variables(b) + Variables(c))
    ensures Placed(a + b + c + d, 0)
    ensures Variables(a + b + c + d) == Variables(a) + Variables(b) + Variables(c) + Variables(d)
  {
    VariablesAppend(a, b);
    VariablesAppend(a + b, c);
    VariablesAppend(a + b + c, d);
    PlacedAppend(a, b, 0);
    PlacedAppend(a + b, c, 0);
    PlacedAppend(a + b + c, d, 0);
  }

  lemma PartsArePlaced(inp: Input)
    returns (a: seq<Declaration>, b: seq<Declaration>, c: seq<Declaration>, d: seq<Declaration>)
    requires inp.Checked()
    ensures inp.Calls() == a + b + c + d
    ensures Placed(a, 0) && Variables(a) == inp.UnmetAt()
    ensures Placed(b, inp.UnmetAt()) && Variables(b) == |inp.evs|
    ensures Placed(c, inp.PeakAt()) && Variables(c) == if inp.demand.Some? then 1 else 0
    ensures Placed(d, inp.Total()) && Variables(d) == 0
  {
    a, b, c, d := inp.FirstSteps(inp.Steps()), inp.UnmetCalls(|inp.evs|), inp.PeakCalls(), inp.TerminalCalls();
    StepsArePlaced(inp);
    CountsSteps(inp, inp.Steps());
    UnmetIsPlaced(inp, |inp.evs|, b, inp.UnmetAt());
    PeakIsPlaced(inp);
    TerminalIsPlaced(inp);
  }

  lemma CallsArePlaced(inp: Input)
    requires inp.Checked()
    ensures Placed(inp.Calls(), 0) && Variables(inp.Calls()) == inp.Total()
  {
    var a, b, c, d := PartsArePlaced(inp);
    PlacedFour(a, b, c, d);
  }

  // ---------------------------------------------------------------- nothing else is mentioned

  lemma ScopeGrows(d: Declaration, a: nat, b: nat)
    requires Scoped(d, a) && a <= b
    ensures Scoped(d, b)
  {
  }

  lemma StepIsScoped(inp: Input, m: nat, d: Declaration)
    requires inp.Checked() && m < inp.Steps() && d in inp.StepCalls(m)
    ensures Scoped(d, inp.UnmetAt())
  {
    DevicesAreLocal(inp, m);
    NearIsNotGrid(inp, m, inp.At(m) + 2, m);
    if d in inp.GridCalls(m) {
    } else if d in inp.DeviceCalls(m) {
      LocalMissesGrid(inp, m, d, m);
    } else {
      NearTermsMissGrid(inp, m, inp.LocalTerms(m), m);
      NearTermsMissGrid(inp, m, inp.DimTerms(m), m);
      assert d in [inp.BalanceCall(m, inp.LocalTerms(m))] || d in inp.DimCalls(m, inp.DimTerms(m));
    }
  }

  lemma {:induction false} ChargedIsNear(inp: Input, i: nat, n: nat)
    requires inp.Checked() && i < |inp.evs| && n <= inp.Steps()
    ensures forall t :: t in inp.ChargedTerms(i, n) ==> exists m: nat :: m < inp.Steps() && Near(inp, m, t.0)
  {
    if n > 0 {
      ChargedIsNear(inp, i, n - 1);
      assert Near(inp, n - 1, inp.EvAt(n - 1) + i);
    }
  }

  lemma ChargedMissesGrid(inp: Input, i: nat, k: nat)
    requires inp.Checked() && i < |inp.evs| && k < inp.Steps()
    ensures var terms := inp.ChargedTerms(i, inp.Steps());
      Without(terms, inp.At(k)) && Without(terms, inp.At(k) + 1) && Inside(terms, inp.UnmetAt())
  {
    ChargedIsNear(inp, i, inp.Steps());
    forall t | t in inp.ChargedTerms(i, inp.Steps())
      ensures t.0 != inp.At(k) && t.0 != inp.At(k) + 1 && t.0 < inp.UnmetAt()
    {
      var m: nat :| m < inp.Steps() && Near(inp, m, t.0);
      NearIsNotGrid(inp, m, t.0, k);
    }
  }

  lemma GridIsBelow(inp: Input, k: nat)
    requires inp.Checked() && k < inp.Steps()
    ensures inp.At(k) + 3 <= inp.UnmetAt()
  {
    AtGrows(inp, k, inp.Steps());
  }

  lemma {:induction false} UnmetMissesGrid(inp: Input, n: nat, k: nat, d: Declaration)
    requires inp.Checked() && n <= |inp.evs| && k < inp.Steps() && d in inp.UnmetCalls(n)
    ensures Misses(d, inp.At(k)) && Misses(d, inp.At(k) + 1) && Scoped(d, inp.PeakAt())
  {
    var u := inp.UnmetAt() + (n - 1);
    GridIsBelow(inp, k);
    if d in inp.UnmetCalls(n - 1) {
      UnmetMissesGrid(inp, n - 1, k, d);
    } else {
      ChargedMissesGrid(inp, n - 1, k);
    }
  }

  lemma {:induction false} PeakRowIs(inp: Input, n: nat, d: Declaration) returns (m: nat)
    requires inp.Checked() && n <= inp.Steps() && d in inp.PeakRows(n)
    ensures m < n && d == AtMost([(inp.At(m), 1.0), (inp.PeakAt(), -1.0)], 0.0)
  {
    if d in inp.PeakRows(n - 1) {
      m := PeakRowIs(inp, n - 1, d);
    } else {
      m := n - 1;
    }
  }

  lemma StepsAreScoped(inp: Input, d: Declaration)
    requires inp.Checked() && d in inp.FirstSteps(inp.Steps())
    ensures Scoped(d, inp.UnmetAt())
  {
    var m := FlatMembers(inp.StepParts(inp.Steps()), d);
    StepIsScoped(inp, m, d);
  }

  lemma PeakIsScoped(inp: Input, d: Declaration)
    requires inp.Checked() && d in inp.PeakCalls()
    ensures Scoped(d, inp.Total())
  {
    if d in inp.PeakRows(inp.Steps()) {
      var m := PeakRowIs(inp, inp.Steps(), d);
      GridIsBelow(inp, m);
    }
  }

  lemma TerminalIsScoped(inp: Input, d: Declaration)
    requires inp.Checked() && d in inp.TerminalCalls()
    ensures Scoped(d, inp.UnmetAt())
  {
    NearIsNotGrid(inp, inp.Steps() - 1, inp.At(inp.Steps() - 1) + 5, 0);
  }

  lemma CallIsScoped(inp: Input, d: Declaration)
    requires inp.Checked() && d in inp.Calls()
    ensures Scoped(d, inp.Total())
  {
    if d in inp.FirstSteps(inp.Steps()) {
      StepsAreScoped(inp, d);
      ScopeGrows(d, inp.UnmetAt(), inp.Total());
    } else if d in inp.UnmetCalls(|inp.evs|) {
      UnmetMissesGrid(inp, |inp.evs|, 0, d);
      ScopeGrows(d, inp.PeakAt(), inp.Total());
    } else if d in inp.PeakCalls() {
      PeakIsScoped(inp, d);
    } else {
      TerminalIsScoped(inp, d);
      ScopeGrows(d, inp.UnmetAt(), inp.Total());
    }
  }

  // Everything `plan` declares is about the variables it has made.
  lemma CallsFit(inp: Input)
    requires inp.Checked()
    ensures Fits(inp.Calls(), inp.Total()) && Variables(inp.Calls()) == inp.Total()
  {
    CallsArePlaced(inp);
    forall d | d in inp.Calls()
      ensures Scoped(d, inp.Total())
    {
      CallIsScoped(inp, d);
    }
  }
}
