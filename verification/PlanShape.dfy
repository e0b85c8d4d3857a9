// The shape of the planner's program: which variables each declaration mentions.
module PlanShape {
  import opened Basics
  import opened Qps
  import opened Declared
  import opened Plans
  import opened Moves
  import opened Blocks

  // ---------------------------------------------------------------- the numbers are spaced out

  lemma {:induction false} AtGrows(inp: Input, a: nat, b: nat)
    requires inp.Checked() && a < b <= inp.Steps()
    ensures inp.At(a) + 3 + inp.BatteryVars(a) + inp.HeatVars() + |inp.evs| <= inp.At(b)
    decreases b
  {
    if a < b - 1 {
      AtGrows(inp, a, b - 1);
    }
  }

  // A variable of step m that is not its grid power, or one of the battery and heat pump of the step before.
  ghost predicate Near(inp: Input, m: nat, v: nat)
    requires inp.Checked() && m < inp.Steps()
  {
    inp.At(m) + 2 <= v < inp.At(m + 1) || (m > 0 && inp.At(m - 1) + 3 <= v < inp.At(m))
  }

  ghost predicate NearTerms(inp: Input, m: nat, terms: Terms)
    requires inp.Checked() && m < inp.Steps()
  {
    forall t :: t in terms ==> Near(inp, m, t.0)
  }

  ghost predicate Local(inp: Input, m: nat, d: Declaration)
    requires inp.Checked() && m < inp.Steps()
  {
    match d
    case Variable(_, _) => true
    case Linear(i, _) => Near(inp, m, i)
    case Equal(terms, _) => NearTerms(inp, m, terms)
    case AtMost(terms, _) => NearTerms(inp, m, terms)
    case AtLeast(terms, _) => NearTerms(inp, m, terms)
    case Squared(terms, _) => NearTerms(inp, m, terms)
  }

  ghost predicate AllLocal(inp: Input, m: nat, ds: seq<Declaration>)
    requires inp.Checked() && m < inp.Steps()
  {
    forall d :: d in ds ==> Local(inp, m, d)
  }

  lemma LocalAppend(inp: Input, m: nat, a: seq<Declaration>, b: seq<Declaration>)
    requires inp.Checked() && m < inp.Steps() && AllLocal(inp, m, a) && AllLocal(inp, m, b)
    ensures AllLocal(inp, m, a + b)
  {
    assert forall d :: d in a + b ==> d in a || d in b;
  }

  lemma NearAppend(inp: Input, m: nat, a: Terms, b: Terms)
    requires inp.Checked() && m < inp.Steps() && NearTerms(inp, m, a) && NearTerms(inp, m, b)
    ensures NearTerms(inp, m, a + b)
  {
    assert forall t :: t in a + b ==> t in a || t in b;
  }

  lemma NearIsNotGrid(inp: Input, m: nat, v: nat, k: nat)
    requires inp.Checked() && m < inp.Steps() && k < inp.Steps() && Near(inp, m, v)
    ensures v != inp.At(k) && v != inp.At(k) + 1 && v < inp.UnmetAt()
  {
    if k < m {
      AtGrows(inp, k, m);
      if k < m - 1 {
        AtGrows(inp, k, m - 1);
      }
    } else if m < k {
      AtGrows(inp, m, k);
    }
    if m + 1 < inp.Steps() {
      AtGrows(inp, m + 1, inp.Steps());
    }
    if m > 0 {
      AtGrows(inp, m, inp.Steps());
    }
  }

  lemma LocalMissesGrid(inp: Input, m: nat, d: Declaration, k: nat)
    requires inp.Checked() && m < inp.Steps() && k < inp.Steps() && Local(inp, m, d)
    ensures Misses(d, inp.At(k)) && Misses(d, inp.At(k) + 1) && Scoped(d, inp.UnmetAt())
  {
    match d
    case Variable(_, _) =>
    case Linear(i, _) =>
      NearIsNotGrid(inp, m, i, k);
    case Equal(terms, _) =>
      NearTermsMissGrid(inp, m, terms, k);
    case AtMost(terms, _) =>
      NearTermsMissGrid(inp, m, terms, k);
    case AtLeast(terms, _) =>
      NearTermsMissGrid(inp, m, terms, k);
    case Squared(terms, _) =>
      NearTermsMissGrid(inp, m, terms, k);
  }

  lemma NearTermsMissGrid(inp: Input, m: nat, terms: Terms, k: nat)
    requires inp.Checked() && m < inp.Steps() && k < inp.Steps() && NearTerms(inp, m, terms)
    ensures Without(terms, inp.At(k)) && Without(terms, inp.At(k) + 1) && Inside(terms, inp.UnmetAt())
  {
    forall t | t in terms
      ensures t.0 != inp.At(k) && t.0 != inp.At(k) + 1 && t.0 < inp.UnmetAt()
    {
      NearIsNotGrid(inp, m, t.0, k);
    }
  }

  // The numbers of the imports; the exports follow them.
  function Imports(inp: Input): seq<nat>
    requires inp.Checked()
  {
    seq(inp.Steps(), k requires 0 <= k < inp.Steps() => inp.At(k))
  }

  // ---------------------------------------------------------------- what each block mentions

  lemma StorageIsLocal(inp: Input, m: nat)
    requires inp.Checked() && m < inp.Steps()
    ensures AllLocal(inp, m, inp.StorageCalls(m))
    ensures NearTerms(inp, m, inp.StorageTerms(m)) && NearTerms(inp, m, inp.DimStorageTerms(m))
  {
    if inp.battery.Some? {
      PowerIsLocal(inp, m);
      BandIsLocal(inp, m);
      EnvelopeIsLocal(inp, m);
      SmoothIsLocal(inp, m);
      LocalAppend(inp, m, inp.PowerCalls(m), inp.BandCalls(m));
      LocalAppend(inp, m, inp.PowerCalls(m) + inp.BandCalls(m), inp.EnvelopeCalls(m));
      LocalAppend(inp, m, inp.PowerCalls(m) + inp.BandCalls(m) + inp.EnvelopeCalls(m), inp.SmoothCalls(m));
    }
  }

  lemma PowerIsLocal(inp: Input, m: nat)
    requires inp.Checked() && m < inp.Steps() && inp.battery.Some?
    ensures AllLocal(inp, m, inp.PowerCalls(m))
  {
    if m > 0 {
      AtGrows(inp, m - 1, m);
    }
    assert NearTerms(inp, m, inp.EnergyTerms(m));
  }

  lemma BandIsLocal(inp: Input, m: nat)
    requires inp.Checked() && m < inp.Steps() && inp.battery.Some?
    ensures AllLocal(inp, m, inp.BandCalls(m))
  {
    var g := inp.At(m);
    assert NearTerms(inp, m, [(g + 5, 1.0), (g + 6, 1.0)]);
    assert NearTerms(inp, m, [(g + 5, 1.0), (g + 7, -1.0)]);
  }

  lemma EnvelopeIsLocal(inp: Input, m: nat)
    requires inp.Checked() && m < inp.Steps() && inp.battery.Some?
    ensures AllLocal(inp, m, inp.EnvelopeCalls(m))
  {
    var g := inp.At(m);
    if inp.Soft(m) {
      assert NearTerms(inp, m, [(g + 5, 1.0), (g + 8, 1.0)]);
    }
  }

  lemma SmoothIsLocal(inp: Input, m: nat)
    requires inp.Checked() && m < inp.Steps() && inp.battery.Some?
    ensures AllLocal(inp, m, inp.SmoothCalls(m))
  {
    if m > 0 {
      var g, p := inp.At(m), inp.At(m - 1);
      AtGrows(inp, m - 1, m);
      assert NearTerms(inp, m, [(g + 3, 1.0), (g + 4, -1.0), (p + 3, -1.0), (p + 4, 1.0)]);
    }
  }

  lemma RoomIsLocal(inp: Input, m: nat)
    requires inp.Checked() && m < inp.Steps() && inp.heat.Some?
    ensures AllLocal(inp, m, inp.RoomCalls(m))
  {
    if m > 0 {
      AtGrows(inp, m - 1, m);
    }
    assert NearTerms(inp, m, inp.HeatTerms(m));
  }

  lemma ComfortIsLocal(inp: Input, m: nat)
    requires inp.Checked() && m < inp.Steps() && inp.heat.Some?
    ensures AllLocal(inp, m, inp.ComfortCalls(m))
  {
    var x := inp.HeatAt(m);
    assert NearTerms(inp, m, [(x + 1, 1.0), (x + 2, 1.0)]);
    assert NearTerms(inp, m, [(x + 1, 1.0), (x + 3, -1.0)]);
  }

  lemma HeatIsLocal(inp: Input, m: nat)
    requires inp.Checked() && m < inp.Steps()
    ensures AllLocal(inp, m, inp.HeatCalls(m))
    ensures NearTerms(inp, m, inp.HeatPumpTerms(m)) && NearTerms(inp, m, inp.DimHeatTerms(m))
  {
    if inp.heat.Some? {
      RoomIsLocal(inp, m);
      ComfortIsLocal(inp, m);
      LocalAppend(inp, m, inp.RoomCalls(m), inp.ComfortCalls(m));
    }
  }

  lemma {:induction false} PricedAreLocal(inp: Input, m: nat, start: nat, most: seq<real>, c: real)
    requires inp.Checked() && m < inp.Steps() && inp.At(m) + 2 <= start && start + |most| <= inp.At(m + 1)
    ensures AllLocal(inp, m, PricedVars(start, most, c))
    decreases |most|
  {
    if most != [] {
      var n := |most| - 1;
      PricedAreLocal(inp, m, start, most[..n], c);
      assert Near(inp, m, start + n);
      LocalAppend(inp, m, PricedVars(start, most[..n], c),
                  [Variable(Some(0.0), Some(most[n])), Linear(start + n, c)]);
    }
  }

  lemma {:induction false} EvTermsAreNear(inp: Input, m: nat, n: nat)
    requires inp.Checked() && m < inp.Steps() && n <= |inp.evs|
    ensures NearTerms(inp, m, inp.EvTerms(m, n)) && NearTerms(inp, m, inp.DimEvTerms(m, n))
  {
    if n > 0 {
      EvTermsAreNear(inp, m, n - 1);
      assert Near(inp, m, inp.EvAt(m) + (n - 1));
      NearAppend(inp, m, inp.EvTerms(m, n - 1), [(inp.EvAt(m) + (n - 1), -1.0)]);
    }
  }

  lemma EvsAreLocal(inp: Input, m: nat)
    requires inp.Checked() && m < inp.Steps()
    ensures AllLocal(inp, m, inp.EvCalls(m, |inp.evs|))
    ensures NearTerms(inp, m, inp.EvTerms(m, |inp.evs|)) && NearTerms(inp, m, inp.DimEvTerms(m, |inp.evs|))
  {
    PricedAreLocal(inp, m, inp.EvAt(m), inp.MostKws(m, |inp.evs|), inp.LaterEur(m));
    EvTermsAreNear(inp, m, |inp.evs|);
  }

  lemma DevicesAreLocal(inp: Input, m: nat)
    requires inp.Checked() && m < inp.Steps()
    ensures AllLocal(inp, m, inp.DeviceCalls(m))
    ensures NearTerms(inp, m, inp.LocalTerms(m)) && NearTerms(inp, m, inp.DimTerms(m))
  {
    StorageIsLocal(inp, m);
    HeatIsLocal(inp, m);
    EvsAreLocal(inp, m);
    LocalAppend(inp, m, inp.StorageCalls(m), inp.HeatCalls(m));
    LocalAppend(inp, m, inp.StorageCalls(m) + inp.HeatCalls(m), inp.EvCalls(m, |inp.evs|));
    var pv: Terms := [(inp.At(m) + 2, 1.0)];
    NearAppend(inp, m, pv, inp.StorageTerms(m));
    NearAppend(inp, m, pv + inp.StorageTerms(m), inp.HeatPumpTerms(m));
    NearAppend(inp, m, pv + inp.StorageTerms(m) + inp.HeatPumpTerms(m), inp.EvTerms(m, |inp.evs|));
    NearAppend(inp, m, inp.DimStorageTerms(m), inp.DimHeatTerms(m));
    NearAppend(inp, m, inp.DimStorageTerms(m) + inp.DimHeatTerms(m), inp.DimEvTerms(m, |inp.evs|));
  }
}
