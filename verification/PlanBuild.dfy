// The loops that declare the planner's program (crates/planner/src/model.rs:280-502).
module PlanBuild {
  import opened Basics
  import opened Qps
  import opened Plans

  lemma {:induction false} VariablesAppend(a: seq<Declaration>, b: seq<Declaration>)
    ensures Variables(a + b) == Variables(a) + Variables(b)
    decreases |b|
  {
    if b == [] {
      assert a + b == a;
    } else {
      assert (a + b)[..|a + b| - 1] == a + b[..|b| - 1];
      VariablesAppend(a, b[..|b| - 1]);
    }
  }

  // The start of the expected dimming the step is in, and the recovery window before it.
  method WindowStart(inp: Input, k: nat) returns (s: nat)
    requires inp.Checked() && k < inp.Steps()
    ensures s == inp.WindowStart(k)
  {
    s := k;
    while s > 0 && inp.dim[s] && inp.dim[s - 1]
      invariant s <= k && inp.Back(s) == inp.Back(k)
    {
      s := s - 1;
    }
    var window := if inp.recovery < 1 then 1 else inp.recovery;
    s := if s + 1 <= window then 0 else s + 1 - window;
  }

  // Every step from there on is dimmed, and the one before is not: it is the whole expected dimming.
  lemma {:induction false} BackIsTheWholeDimming(inp: Input, k: nat)
    requires inp.Checked() && k < inp.Steps() && inp.dim[k]
    ensures forall m :: inp.Back(k) <= m <= k ==> inp.dim[m]
    ensures inp.Back(k) == 0 || !inp.dim[inp.Back(k) - 1]
    decreases k
  {
    if k > 0 && inp.dim[k - 1] {
      BackIsTheWholeDimming(inp, k - 1);
    }
  }

  method Tighten(inp: Input, k: nat) returns (kwh: real)
    requires inp.Checked() && k < inp.Steps()
    ensures kwh == inp.Tightened(k)
  {
    var from := WindowStart(inp, k);
    var sigma, low := 0.0, 0.0;
    for m := from to k + 1
      invariant sigma == inp.SigmaSum(from, m) && low == inp.LowSum(from, m)
    {
      sigma := sigma + inp.dt * (inp.f.pvSigmaKw[m] + inp.f.baseSigmaKw);
      low := low + inp.dt * (Max(inp.f.pvKw[m] - inp.f.pvWorstKw[m], 0.0) + 2.0 * inp.f.baseSigmaKw);
    }
    var window := if inp.recovery < 1 then 1 else inp.recovery;
    var risk, m := false, k;
    while m < inp.Steps() && m < k + window
      invariant k <= m <= inp.Steps() && m <= k + window
      invariant risk <==> exists j :: k <= j < m && inp.dim[j]
    {
      risk := risk || inp.dim[m];
      m := m + 1;
    }
    if !risk {
      kwh := 0.0;
    } else {
      match inp.uncertainty
      case Deterministic => kwh := 0.0;
      case Chance(z) => kwh := z * sigma;
      case Robust => kwh := low;
    }
  }

  // ---------------------------------------------------------------- how many variables each part makes

  lemma Taken(ds: seq<Declaration>, n: nat)
    requires n < |ds|
    ensures Variables(ds[..n + 1]) == Variables(ds[..n]) + (if ds[n].Variable? then 1 else 0)
  {
    assert ds[..n + 1][..n] == ds[..n];
  }

  lemma CountsSix(ds: seq<Declaration>)
    requires |ds| == 6
    ensures Variables(ds)
            == (if ds[0].Variable? then 1 else 0) + (if ds[1].Variable? then 1 else 0)
               + (if ds[2].Variable? then 1 else 0) + (if ds[3].Variable? then 1 else 0)
               + (if ds[4].Variable? then 1 else 0) + (if ds[5].Variable? then 1 else 0)
  {
    assert ds[..6] == ds && ds[..0] == [];
    Taken(ds, 0);
    Taken(ds, 1);
    Taken(ds, 2);
    Taken(ds, 3);
    Taken(ds, 4);
    Taken(ds, 5);
  }

  lemma CountsThree(ds: seq<Declaration>)
    requires |ds| == 3
    ensures Variables(ds)
            == (if ds[0].Variable? then 1 else 0) + (if ds[1].Variable? then 1 else 0)
               + (if ds[2].Variable? then 1 else 0)
  {
    assert ds[..3] == ds && ds[..0] == [];
    Taken(ds, 0);
    Taken(ds, 1);
    Taken(ds, 2);
  }

  lemma CountsStorage(inp: Input, k: nat)
    requires inp.Checked() && k < inp.Steps()
    ensures Variables(inp.StorageCalls(k)) == inp.BatteryVars(k)
  {
    if inp.battery.Some? {
      CountsSix(inp.PowerCalls(k));
      CountsSix(inp.BandCalls(k));
      if inp.Soft(k) {
        CountsThree(inp.EnvelopeCalls(k));
      }
      VariablesAppend(inp.PowerCalls(k), inp.BandCalls(k));
      VariablesAppend(inp.PowerCalls(k) + inp.BandCalls(k), inp.EnvelopeCalls(k));
      VariablesAppend(inp.PowerCalls(k) + inp.BandCalls(k) + inp.EnvelopeCalls(k), inp.SmoothCalls(k));
    }
  }

  lemma CountsHeat(inp: Input, k: nat)
    requires inp.Checked() && k < inp.Steps()
    ensures Variables(inp.HeatCalls(k)) == inp.HeatVars()
  {
    if inp.heat.Some? {
      CountsThree(inp.RoomCalls(k));
      CountsSix(inp.ComfortCalls(k));
      VariablesAppend(inp.RoomCalls(k), inp.ComfortCalls(k));
    }
  }

  lemma CountsPair(lo: Option<real>, hi: Option<real>, i: nat, c: real)
    ensures Variables([Variable(lo, hi), Linear(i, c)]) == 1
  {
    var ds := [Variable(lo, hi), Linear(i, c)];
    assert ds[..2] == ds && ds[..0] == [];
    Taken(ds, 0);
    Taken(ds, 1);
  }

  lemma {:induction false} CountsPriced(start: nat, most: seq<real>, c: real)
    ensures Variables(PricedVars(start, most, c)) == |most|
    decreases |most|
  {
    if most != [] {
      var n := |most| - 1;
      CountsPriced(start, most[..n], c);
      CountsPair(Some(0.0), Some(most[n]), start + n, c);
      VariablesAppend(PricedVars(start, most[..n], c), [Variable(Some(0.0), Some(most[n])), Linear(start + n, c)]);
    }
  }

  lemma CountsEvs(inp: Input, k: nat, n: nat)
    requires inp.Checked() && k < inp.Steps() && n <= |inp.evs|
    ensures Variables(inp.EvCalls(k, n)) == n
  {
    CountsPriced(inp.EvAt(k), inp.MostKws(k, n), inp.LaterEur(k));
  }

  lemma CountsDevices(inp: Input, k: nat)
    requires inp.Checked() && k < inp.Steps()
    ensures Variables(inp.DeviceCalls(k)) == inp.BatteryVars(k) + inp.HeatVars() + |inp.evs|
  {
    CountsStorage(inp, k);
    CountsHeat(inp, k);
    CountsEvs(inp, k, |inp.evs|);
    VariablesAppend(inp.StorageCalls(k), inp.HeatCalls(k));
    VariablesAppend(inp.StorageCalls(k) + inp.HeatCalls(k), inp.EvCalls(k, |inp.evs|));
  }

  lemma CountsStep(inp: Input, k: nat)
    requires inp.Checked() && k < inp.Steps()
    ensures Variables(inp.GridCalls(k)) == 3
    ensures Variables(inp.StepCalls(k)) == 3 + inp.BatteryVars(k) + inp.HeatVars() + |inp.evs|
  {
    var balance := [inp.BalanceCall(k, inp.LocalTerms(k))];
    CountsSix(inp.GridCalls(k));
    CountsDevices(inp, k);
    VariablesAppend(inp.GridCalls(k), inp.DeviceCalls(k));
    VariablesAppend(inp.GridCalls(k) + inp.DeviceCalls(k), balance);
    VariablesAppend(inp.GridCalls(k) + inp.DeviceCalls(k) + balance, inp.DimCalls(k, inp.DimTerms(k)));
  }

  // The numbers the variables of the parts get, from a first one.
  ghost predicate Numbered(parts: seq<seq<Declaration>>, at: seq<nat>) {
    |at| == |parts| + 1 && at[0] == 0
    && forall k :: 0 <= k < |parts| ==> at[k + 1] == at[k] + Variables(parts[k])
  }

  lemma {:induction false} FlatCounts(parts: seq<seq<Declaration>>, at: seq<nat>)
    requires Numbered(parts, at)
    ensures Variables(Flat(parts)) == at[|parts|]
    decreases |parts|
  {
    if parts != [] {
      var n := |parts| - 1;
      FlatCounts(parts[..n], at[..n + 1]);
      VariablesAppend(Flat(parts[..n]), parts[n]);
    }
  }

  function Numbers(inp: Input, n: nat): seq<nat>
    requires inp.Checked() && n <= inp.Steps()
  {
    seq(n + 1, k requires 0 <= k <= n => inp.At(k))
  }

  lemma NextNumber(inp: Input, k: nat)
    requires inp.Checked() && k < inp.Steps()
    ensures inp.At(k + 1) == inp.At(k) + Variables(inp.StepCalls(k))
  {
    CountsStep(inp, k);
  }

  lemma StepsAreNumbered(inp: Input, n: nat)
    requires inp.Checked() && n <= inp.Steps()
    ensures Numbered(inp.StepParts(n), Numbers(inp, n))
  {
    var parts, at := inp.StepParts(n), Numbers(inp, n);
    forall k | 0 <= k < n
      ensures at[k + 1] == at[k] + Variables(parts[k])
    {
      NextNumber(inp, k);
    }
  }

  // The variables are numbered as laid out.
  lemma CountsSteps(inp: Input, n: nat)
    requires inp.Checked() && n <= inp.Steps()
    ensures Variables(inp.FirstSteps(n)) == inp.At(n)
  {
    StepsAreNumbered(inp, n);
    FlatCounts(inp.StepParts(n), Numbers(inp, n));
  }

  // ---------------------------------------------------------------- the loops

  method EvSide(inp: Input, k: nat) returns (calls: seq<Declaration>, balance: Terms, dimmed: Terms)
    requires inp.Checked() && k < inp.Steps()
    ensures calls == inp.EvCalls(k, |inp.evs|) && balance == inp.EvTerms(k, |inp.evs|)
    ensures dimmed == inp.DimEvTerms(k, |inp.evs|)
  {
    calls, balance, dimmed := [], [], [];
    for i := 0 to |inp.evs|
      invariant calls == inp.EvCalls(k, i) && balance == inp.EvTerms(k, i) && dimmed == inp.DimEvTerms(k, i)
    {
      var x := inp.EvAt(k) + i;
      assert inp.MostKws(k, i + 1)[..i] == inp.MostKws(k, i);
      calls := calls + [Variable(Some(0.0), Some(inp.MostKw(i, k))), Linear(x, inp.LaterEur(k))];
      balance := balance + [(x, -1.0)];
      if inp.evs[i].dimmable {
        dimmed := dimmed + [(x, 1.0)];
      }
    }
  }

  method UnmetSide(inp: Input) returns (calls: seq<Declaration>)
    requires inp.Checked()
    ensures calls == inp.UnmetCalls(|inp.evs|)
  {
    calls := [];
    for i := 0 to |inp.evs|
      invariant calls == inp.UnmetCalls(i)
    {
      var u := inp.UnmetAt() + i;
      var terms: Terms := [];
      for k := 0 to inp.Steps()
        invariant terms == inp.ChargedTerms(i, k)
      {
        terms := terms + [(inp.EvAt(k) + i, inp.Charged(i))];
      }
      calls := calls + [Variable(Some(0.0), None), Linear(u, inp.w.evUnmet),
                        AtLeast(terms + [(u, 1.0)], Max(inp.NeedKwh(i), 0.0))];
    }
  }

  method PeakSide(inp: Input) returns (calls: seq<Declaration>)
    requires inp.Checked()
    ensures calls == inp.PeakCalls()
  {
    calls := [];
    if inp.demand.Some? {
      var rows: seq<Declaration> := [];
      for k := 0 to inp.Steps()
        invariant rows == inp.PeakRows(k)
      {
        rows := rows + [AtMost([(inp.At(k), 1.0), (inp.PeakAt(), -1.0)], 0.0)];
      }
      calls := [Variable(Some(inp.PeakFloor()), inp.PeakLimit()), Linear(inp.PeakAt(), inp.demand.value.eurPerKw)] + rows;
    }
  }

  method TerminalSide(inp: Input) returns (calls: seq<Declaration>)
    requires inp.Checked()
    ensures calls == inp.TerminalCalls()
  {
    calls := [];
    if inp.battery.Some? {
      var sum := 0.0;
      for k := 0 to inp.Steps()
        invariant sum == inp.PricesSum(k)
      {
        sum := sum + inp.PriceIn(k);
      }
      calls := [Linear(inp.At(inp.Steps() - 1) + 5, -inp.LeftEur(sum, inp.battery.value))];
    }
  }

  // The battery's power and energy.
  method PowerSide(inp: Input, k: nat, made: nat) returns (calls: seq<Declaration>, c: nat, d: nat, e: nat)
    requires inp.Checked() && k < inp.Steps() && inp.battery.Some? && made == inp.At(k) + 3
    ensures calls == inp.PowerCalls(k) && c == made && d == made + 1 && e == made + 2
  {
    var b := inp.battery.value;
    calls := [];
    c, d, e := made, made + 1, made + 2;
    calls := calls + [Variable(Some(0.0), Some(b.chargeKw))];
    calls := calls + [Variable(Some(0.0), Some(b.dischargeKw))];
    calls := calls + [Linear(c, inp.PerStep(b.degradation))];
    calls := calls + [Linear(d, inp.PerStep(b.degradation))];
    calls := calls + [Variable(Some(Min(b.minKwh, b.energyKwh)), Some(Max(b.maxKwh, b.energyKwh)))];
    var dynamics: Terms := [(e, 1.0), (c, -inp.Stored(b)), (d, inp.Drained(b))];
    var rhs := b.energyKwh;
    if k > 0 {
      dynamics := dynamics + [(inp.At(k - 1) + 5, -1.0)];
      rhs := 0.0;
    }
    calls := calls + [Equal(dynamics, rhs)];
    assert dynamics == inp.EnergyTerms(k);
  }

  // The band that is good for its cells, the tightened envelope, and a smooth schedule.
  method BandSide(inp: Input, k: nat, c: nat, d: nat, e: nat) returns (calls: seq<Declaration>)
    requires inp.Checked() && k < inp.Steps() && inp.battery.Some?
    requires c == inp.At(k) + 3 && d == inp.At(k) + 4 && e == inp.At(k) + 5
    ensures calls == inp.BandCalls(k) + inp.EnvelopeCalls(k) + inp.SmoothCalls(k)
  {
    var b := inp.battery.value;
    var low, high, soft := e + 1, e + 2, e + 3;
    calls := [Variable(Some(0.0), None)];
    calls := calls + [Variable(Some(0.0), None)];
    calls := calls + [Linear(low, inp.PerStep(inp.w.socBand))];
    calls := calls + [Linear(high, inp.PerStep(inp.w.socBand))];
    calls := calls + [AtLeast([(e, 1.0), (low, 1.0)], b.bandLoKwh)];
    calls := calls + [AtMost([(e, 1.0), (high, -1.0)], b.bandHiKwh)];
    assert calls == inp.BandCalls(k);
    var tightened := Tighten(inp, k);
    if tightened > 0.0 {
      calls := calls + [Variable(Some(0.0), None)];
      calls := calls + [Linear(soft, inp.w.softEnvelope)];
      calls := calls + [AtLeast([(e, 1.0), (soft, 1.0)], b.minKwh + tightened)];
    }
    assert calls == inp.BandCalls(k) + inp.EnvelopeCalls(k);
    if k > 0 && inp.w.smoothing > 0.0 {
      var p := inp.At(k - 1);
      calls := calls + [Squared([(c, 1.0), (d, -1.0), (p + 3, -1.0), (p + 4, 1.0)], inp.w.smoothing)];
    }
  }

  method StorageSide(inp: Input, k: nat) returns (calls: seq<Declaration>, balance: Terms, dimmed: Terms)
    requires inp.Checked() && k < inp.Steps()
    ensures calls == inp.StorageCalls(k) && balance == inp.StorageTerms(k) && dimmed == inp.DimStorageTerms(k)
  {
    calls, balance, dimmed := [], [], [];
    if inp.battery.Some? {
      var power, c, d, e := PowerSide(inp, k, inp.At(k) + 3);
      var band := BandSide(inp, k, c, d, e);
      calls := power + band;
      balance := balance + [(c, -1.0)];
      balance := balance + [(d, 1.0)];
      if inp.battery.value.dimmable {
        dimmed := dimmed + [(c, 1.0)];
        dimmed := dimmed + [(d, -1.0)];
      }
    }
  }

  method HeatSide(inp: Input, k: nat) returns (calls: seq<Declaration>, balance: Terms, dimmed: Terms)
    requires inp.Checked() && k < inp.Steps()
    ensures calls == inp.HeatCalls(k) && balance == inp.HeatPumpTerms(k) && dimmed == inp.DimHeatTerms(k)
  {
    calls, balance, dimmed := [], [], [];
    if inp.heat.Some? {
      var h := inp.heat.value;
      var x, t := inp.HeatAt(k), inp.HeatAt(k) + 1;
      calls := calls + [Variable(Some(0.0), Some(h.maxKw))];
      calls := calls + [Variable(None, None)];
      var terms: Terms := [(t, 1.0), (x, -inp.Warmed(h, k))];
      var rhs := inp.Gained(h, k);
      if k == 0 {
        rhs := rhs + inp.Kept(h) * h.indoorC;
      } else {
        terms := terms + [(inp.HeatAt(k - 1) + 1, -inp.Kept(h))];
      }
      assert terms == inp.HeatTerms(k);
      assert rhs == if k == 0 then inp.StartC(h) else inp.Gained(h, k);
      calls := calls + [Equal(terms, rhs)];
      assert calls == inp.RoomCalls(k);
      var cold, warm := t + 1, t + 2;
      calls := calls + [Variable(Some(0.0), None)];
      calls := calls + [Variable(Some(0.0), None)];
      calls := calls + [Linear(cold, inp.PerStep(inp.w.comfort))];
      calls := calls + [Linear(warm, inp.PerStep(inp.w.comfort))];
      calls := calls + [AtLeast([(t, 1.0), (cold, 1.0)], h.tMinC[k])];
      calls := calls + [AtMost([(t, 1.0), (warm, -1.0)], h.tMaxC[k])];
      assert calls == inp.RoomCalls(k) + inp.ComfortCalls(k);
      balance := balance + [(x, -1.0)];
      if h.dimmable {
        dimmed := dimmed + [(x, 1.0)];
      }
    }
  }

  method GridSide(inp: Input, k: nat) returns (calls: seq<Declaration>, balance: Terms)
    requires inp.Checked() && k < inp.Steps()
    ensures calls == inp.GridCalls(k) && balance == [(inp.At(k), 1.0), (inp.At(k) + 1, -1.0), (inp.At(k) + 2, 1.0)]
  {
    var gin := inp.At(k);
    var gout, p := gin + 1, gin + 2;
    calls := [Variable(Some(0.0), inp.importKw)];
    calls := calls + [Linear(gin, inp.ImportEur(k))];
    calls := calls + [Variable(Some(0.0),
                               if inp.exportKw[k].None? then None else Some(Max(inp.exportKw[k].value, 0.0)))];
    calls := calls + [Linear(gout, inp.ExportEur(k))];
    calls := calls + [Variable(Some(0.0), Some(Max(inp.f.pvKw[k], 0.0)))];
    calls := calls + [Linear(p, inp.PvEur())];
    balance := [(gin, 1.0), (gout, -1.0), (p, 1.0)];
  }

  method DimSide(inp: Input, k: nat, dimmed: Terms) returns (calls: seq<Declaration>)
    requires inp.Checked() && k < inp.Steps()
    ensures calls == inp.DimCalls(k, dimmed)
  {
    calls := [];
    if inp.dim[k] {
      var rhs := inp.dimFloorKw + Max(inp.PvLow(k) - inp.BaseHigh(k), 0.0);
      if dimmed != [] {
        calls := calls + [AtMost(dimmed, rhs)];
      }
    }
  }

  lemma BalanceTerms(g: nat, stored: Terms, heated: Terms, driven: Terms)
    ensures [(g, 1.0), (g + 1, -1.0), (g + 2, 1.0)] + stored + heated + driven
            == [(g, 1.0), (g + 1, -1.0)] + ([(g + 2, 1.0)] + stored + heated + driven)
  {
  }

  // One step of the horizon.
  method StepSide(inp: Input, k: nat) returns (calls: seq<Declaration>)
    requires inp.Checked() && k < inp.Steps()
    ensures calls == inp.StepCalls(k)
  {
    var grid, balance := GridSide(inp, k);
    var storage, stored, dimmedStorage := StorageSide(inp, k);
    var heat, heated, dimmedHeat := HeatSide(inp, k);
    var cars, driven, dimmedCars := EvSide(inp, k);
    balance := balance + stored + heated + driven;
    var dimmed := dimmedStorage + dimmedHeat + dimmedCars;
    BalanceTerms(inp.At(k), stored, heated, driven);
    var limit := DimSide(inp, k, dimmed);
    calls := grid + (storage + heat + cars) + [Equal(balance, inp.f.baseKw[k])] + limit;
  }

  // Everything `plan` declares.
  method PlanSide(inp: Input) returns (calls: seq<Declaration>)
    requires inp.Checked()
    ensures calls == inp.Calls()
  {
    calls := [];
    for k := 0 to inp.Steps()
      invariant calls == inp.FirstSteps(k)
    {
      var step := StepSide(inp, k);
      assert inp.StepParts(k + 1)[..k] == inp.StepParts(k);
      calls := calls + step;
    }
    var unmet := UnmetSide(inp);
    var peak := PeakSide(inp);
    var terminal := TerminalSide(inp);
    calls := calls + unmet + peak + terminal;
  }
}
