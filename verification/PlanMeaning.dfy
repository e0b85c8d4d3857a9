// What every plan the solver may return keeps to: the battery's energy, the room's temperature, and the expected dimming
// (crates/planner/src/model.rs:360-466).
module PlanMeaning {
  import opened Basics
  import opened Sums
  import opened Qps
  import opened QpMeaning
  import opened Declared
  import opened Plans
  import opened PlanBuild
  import opened PlanShape
  import opened PlanSound
  import opened PlanReading

  // A point the solver may return for this input.
  ghost predicate Solves(inp: Input, x: Point) {
    && inp.Checked() && |x| == inp.Total() && Fits(inp.Calls(), |x|) && KeepsAll(inp.Calls(), x)
  }

  lemma SolverSolves(inp: Input, x: Point)
    requires inp.Checked() && |x| == inp.Total()
    ensures Sound(inp.Calls()) && Variables(inp.Calls()) == |x|
    ensures SolverFeasible(Build(inp.Calls()), x) <==> Solves(inp, x)
  {
    CallsFit(inp);
    ProgramMeansDeclarations(inp.Calls(), x);
  }

  // ---------------------------------------------------------------- bounds

  // A variable in the middle of the program keeps to its bounds.
  lemma BoundsHold(ds: seq<Declaration>, before: seq<Declaration>, block: seq<Declaration>, after: seq<Declaration>,
                   i: nat, x: Point)
    requires Fits(ds, |x|) && KeepsAll(ds, x) && ds == before + block + after && i < |block| && block[i].Variable?
    ensures var v := Variables(before) + Variables(block[..i]);
      v < |x| && WithinBounds(x[v], block[i].lo, block[i].hi)
  {
    var p := |before| + i;
    assert ds[p] == block[i] && ds[..p] == before + block[..i];
    VariablesAppend(before, block[..i]);
    VariableBelow(ds, p);
    assert KeepsAt(ds, p, x);
  }

  // The battery's and the heat pump's calls stand where their variables are counted from.
  lemma StorageStands(inp: Input, k: nat) returns (before: seq<Declaration>, after: seq<Declaration>)
    requires inp.Checked() && k < inp.Steps() && inp.battery.Some?
    ensures inp.Calls() == before + inp.PowerCalls(k) + after && Variables(before) == inp.At(k) + 3
  {
    var rest := StepStands(inp, k);
    after := RegroupStorage(inp.FirstSteps(k), inp.GridCalls(k), inp.PowerCalls(k), inp.BandCalls(k),
                            inp.EnvelopeCalls(k), inp.SmoothCalls(k), inp.HeatCalls(k), inp.EvCalls(k, |inp.evs|), rest);
    before := inp.FirstSteps(k) + inp.GridCalls(k);
    CountedBeforeDevices(inp, k);
  }

  lemma RegroupStorage<T>(first: seq<T>, grid: seq<T>, power: seq<T>, band: seq<T>, envelope: seq<T>, smooth: seq<T>,
                          heat: seq<T>, cars: seq<T>, rest: seq<T>) returns (after: seq<T>)
    ensures first + grid + (power + band + envelope + smooth) + heat + cars + rest == (first + grid) + power + after
  {
    after := band + envelope + smooth + heat + cars + rest;
  }

  lemma CountedBeforeDevices(inp: Input, k: nat)
    requires inp.Checked() && k < inp.Steps()
    ensures Variables(inp.FirstSteps(k) + inp.GridCalls(k)) == inp.At(k) + 3
  {
    CountsSteps(inp, k);
    CountsStep(inp, k);
    VariablesAppend(inp.FirstSteps(k), inp.GridCalls(k));
  }

  lemma RoomStands(inp: Input, k: nat) returns (before: seq<Declaration>, after: seq<Declaration>)
    requires inp.Checked() && k < inp.Steps() && inp.heat.Some?
    ensures inp.Calls() == before + inp.RoomCalls(k) + after && Variables(before) == inp.HeatAt(k)
  {
    var rest := StepStands(inp, k);
    after := RegroupRoom(inp.FirstSteps(k) + inp.GridCalls(k) + inp.StorageCalls(k), inp.RoomCalls(k),
                         inp.ComfortCalls(k), inp.EvCalls(k, |inp.evs|), rest);
    before := inp.FirstSteps(k) + inp.GridCalls(k) + inp.StorageCalls(k);
    CountedBeforeDevices(inp, k);
    CountsStorage(inp, k);
    VariablesAppend(inp.FirstSteps(k) + inp.GridCalls(k), inp.StorageCalls(k));
  }

  lemma RegroupRoom<T>(before: seq<T>, room: seq<T>, comfort: seq<T>, cars: seq<T>, rest: seq<T>) returns (after: seq<T>)
    ensures before + (room + comfort) + cars + rest == before + room + after
  {
    after := comfort + cars + rest;
  }

  lemma StepStands(inp: Input, k: nat) returns (rest: seq<Declaration>)
    requires inp.Checked() && k < inp.Steps()
    ensures inp.Calls()
            == inp.FirstSteps(k) + inp.GridCalls(k) + inp.StorageCalls(k) + inp.HeatCalls(k)
               + inp.EvCalls(k, |inp.evs|) + rest
  {
    var later := StepAmongSteps(inp, k);
    rest := Unfold(inp.FirstSteps(k), inp.GridCalls(k), inp.StorageCalls(k), inp.HeatCalls(k), inp.EvCalls(k, |inp.evs|),
                   [inp.BalanceCall(k, inp.LocalTerms(k))], inp.DimCalls(k, inp.DimTerms(k)), later,
                   inp.UnmetCalls(|inp.evs|), inp.PeakCalls(), inp.TerminalCalls());
  }

  lemma Unfold<T>(first: seq<T>, grid: seq<T>, storage: seq<T>, heat: seq<T>, cars: seq<T>, balance: seq<T>, dims: seq<T>,
                  later: seq<T>, u: seq<T>, p: seq<T>, t: seq<T>) returns (rest: seq<T>)
    ensures (first + (grid + (storage + heat + cars) + balance + dims) + later) + u + p + t
            == first + grid + storage + heat + cars + rest
  {
    rest := balance + dims + later + u + p + t;
  }

  // ---------------------------------------------------------------- the battery

  function EnergyKwh(inp: Input, x: Point, k: nat): real
    requires inp.Checked() && k < inp.Steps() && |x| == inp.Total() && inp.battery.Some?
  {
    AtGrows(inp, k, inp.Steps());
    x[inp.At(k) + 5]
  }

  function ChargeKw(inp: Input, x: Point, k: nat): real
    requires inp.Checked() && k < inp.Steps() && |x| == inp.Total() && inp.battery.Some?
  {
    AtGrows(inp, k, inp.Steps());
    x[inp.At(k) + 3]
  }

  function DischargeKw(inp: Input, x: Point, k: nat): real
    requires inp.Checked() && k < inp.Steps() && |x| == inp.Total() && inp.battery.Some?
  {
    AtGrows(inp, k, inp.Steps());
    x[inp.At(k) + 4]
  }

  // What a step adds to the energy: less is stored than charged, more is drained than discharged.
  function AddedKwh(inp: Input, x: Point, k: nat): real
    requires inp.Checked() && k < inp.Steps() && |x| == inp.Total() && inp.battery.Some?
  {
    Weighted(inp.Stored(inp.battery.value), ChargeKw(inp, x, k))
    - Weighted(inp.Drained(inp.battery.value), DischargeKw(inp, x, k))
  }

  function EnergiesKwh(inp: Input, x: Point): seq<real>
    requires inp.Checked() && |x| == inp.Total() && inp.battery.Some?
  {
    seq(inp.Steps(), k requires 0 <= k < inp.Steps() => EnergyKwh(inp, x, k))
  }

  function AdditionsKwh(inp: Input, x: Point): seq<real>
    requires inp.Checked() && |x| == inp.Total() && inp.battery.Some?
  {
    seq(inp.Steps(), k requires 0 <= k < inp.Steps() => AddedKwh(inp, x, k))
  }

  // Each of the values adds to the one before.
  ghost predicate Accumulates(values: seq<real>, start: real, added: seq<real>) {
    |values| == |added| && forall k: nat :: AddsAt(values, start, added, k)
  }

  ghost predicate AddsAt(values: seq<real>, start: real, added: seq<real>, k: nat) {
    k < |values| && k < |added| ==> values[k] == (if k == 0 then start else values[k - 1]) + added[k]
  }

  lemma {:induction false} AccumulatedIs(values: seq<real>, start: real, added: seq<real>, k: nat)
    requires Accumulates(values, start, added) && k < |values|
    ensures values[k] == start + Sum(added[..k + 1])
    decreases k
  {
    var so := added[..k + 1];
    assert so[..|so| - 1] == added[..k] && so[|so| - 1] == added[k];
    assert Sum(so) == Sum(added[..k]) + added[k];
    assert AddsAt(values, start, added, k);
    if k > 0 {
      AccumulatedIs(values, start, added, k - 1);
    } else {
      assert added[..k] == [];
    }
  }

  lemma DotThree(i: nat, a: real, j: nat, b: real, m: nat, c: real, x: Point)
    requires i < |x| && j < |x| && m < |x|
    ensures var terms: Terms := [(i, a), (j, b), (m, c)];
      Inside(terms, |x|) && Dot(terms, x) == Weighted(a, x[i]) + Weighted(b, x[j]) + Weighted(c, x[m])
  {
    DotTwo(i, a, j, b, x);
    DotOf(m, c, x);
    DotAppend([(i, a), (j, b)], [(m, c)], x);
    assert [(i, a), (j, b)] + [(m, c)] == [(i, a), (j, b), (m, c)];
  }

  lemma DotTwo(i: nat, a: real, j: nat, b: real, x: Point)
    requires i < |x| && j < |x|
    ensures var terms: Terms := [(i, a), (j, b)];
      Inside(terms, |x|) && Dot(terms, x) == Weighted(a, x[i]) + Weighted(b, x[j])
  {
    DotOf(i, a, x);
    DotOf(j, b, x);
    DotAppend([(i, a)], [(j, b)], x);
    assert [(i, a)] + [(j, b)] == [(i, a), (j, b)];
  }

  lemma Units(c: real, v: real)
    ensures Weighted(1.0, v) == v && Weighted(-1.0, v) == -v && Weighted(-c, v) == -Weighted(c, v)
  {
  }

  lemma DotOfDynamics(e: nat, c: nat, stored: real, d: nat, drained: real, x: Point)
    requires e < |x| && c < |x| && d < |x|
    ensures var terms: Terms := [(e, 1.0), (c, -stored), (d, drained)];
      Inside(terms, |x|) && Dot(terms, x) == x[e] - Weighted(stored, x[c]) + Weighted(drained, x[d])
  {
    DotThree(e, 1.0, c, -stored, d, drained, x);
    Units(stored, x[c]);
    Units(0.0, x[e]);
  }

  lemma DotAndBefore(terms: Terms, before: nat, x: Point)
    requires Inside(terms, |x|) && before < |x|
    ensures Inside(terms + [(before, -1.0)], |x|) && Dot(terms + [(before, -1.0)], x) == Dot(terms, x) - x[before]
  {
    DotOf(before, -1.0, x);
    Units(0.0, x[before]);
    DotAppend(terms, [(before, -1.0)], x);
  }

  lemma EnergyIsMade(inp: Input, k: nat)
    requires inp.Checked() && k < inp.Steps() && inp.battery.Some?
    ensures inp.At(k) + 5 < inp.Total()
  {
    AtGrows(inp, k, inp.Steps());
  }

  lemma DotOfEnergy(inp: Input, x: Point, k: nat)
    requires inp.Checked() && k < inp.Steps() && |x| == inp.Total() && inp.battery.Some?
    ensures Inside(inp.EnergyTerms(k), |x|)
    ensures Dot(inp.EnergyTerms(k), x)
            == EnergyKwh(inp, x, k) - AddedKwh(inp, x, k) - (if k == 0 then 0.0 else EnergyKwh(inp, x, k - 1))
  {
    var g, stored, drained := inp.At(k), inp.Stored(inp.battery.value), inp.Drained(inp.battery.value);
    var terms: Terms := [(g + 5, 1.0), (g + 3, -stored), (g + 4, drained)];
    EnergyIsMade(inp, k);
    DotOfDynamics(g + 5, g + 3, stored, g + 4, drained, x);
    if k > 0 {
      EnergyIsMade(inp, k - 1);
      DotAndBefore(terms, inp.At(k - 1) + 5, x);
    } else {
      assert inp.EnergyTerms(k) == terms;
    }
  }

  lemma EnergyCallStands(inp: Input, k: nat) returns (d: Declaration)
    requires inp.Checked() && k < inp.Steps() && inp.battery.Some?
    ensures d in inp.Calls() && d == Equal(inp.EnergyTerms(k), if k == 0 then inp.battery.value.energyKwh else 0.0)
  {
    var before, after := StorageStands(inp, k);
    d := inp.PowerCalls(k)[5];
    assert inp.Calls()[|before| + 5] == d;
  }

  // The energy of a step is that of the step before, and what the step adds.
  lemma EnergyFollows(inp: Input, x: Point, k: nat)
    requires Solves(inp, x) && k < inp.Steps() && inp.battery.Some?
    ensures EnergyKwh(inp, x, k)
            == (if k == 0 then inp.battery.value.energyKwh else EnergyKwh(inp, x, k - 1)) + AddedKwh(inp, x, k)
  {
    var d := EnergyCallStands(inp, k);
    DotOfEnergy(inp, x, k);
    KeepsMember(inp.Calls(), x, d);
    assert Dot(d.terms, x) == d.rhs;
  }

  ghost predicate EnergyStep(inp: Input, x: Point, k: nat)
    requires inp.Checked() && |x| == inp.Total() && inp.battery.Some?
  {
    k < inp.Steps() ==>
      EnergyKwh(inp, x, k)
      == (if k == 0 then inp.battery.value.energyKwh else EnergyKwh(inp, x, k - 1)) + AddedKwh(inp, x, k)
  }

  lemma EnergySteps(inp: Input, x: Point)
    requires Solves(inp, x) && inp.battery.Some?
    ensures forall k: nat :: EnergyStep(inp, x, k)
  {
    forall k: nat
      ensures EnergyStep(inp, x, k)
    {
      if k < inp.Steps() {
        EnergyFollows(inp, x, k);
      }
    }
  }

  lemma EnergyAccumulates(inp: Input, x: Point)
    requires inp.Checked() && |x| == inp.Total() && inp.battery.Some?
    requires forall k: nat :: EnergyStep(inp, x, k)
    ensures Accumulates(EnergiesKwh(inp, x), inp.battery.value.energyKwh, AdditionsKwh(inp, x))
  {
    var values, added := EnergiesKwh(inp, x), AdditionsKwh(inp, x);
    forall k: nat
      ensures AddsAt(values, inp.battery.value.energyKwh, added, k)
    {
      assert EnergyStep(inp, x, k);
    }
  }

  // In every plan the solver may return nothing is lost of the battery's energy: after every step it is what was there at
  // the start, and what all steps since have added. It stays within its limits, as far as it started there, and so do the
  // powers.
  lemma BatteryIsPlanned(inp: Input, x: Point, k: nat)
    requires Solves(inp, x) && k < inp.Steps() && inp.battery.Some?
    ensures var b := inp.battery.value;
      && EnergyKwh(inp, x, k) == b.energyKwh + Sum(AdditionsKwh(inp, x)[..k + 1])
      && Min(b.minKwh, b.energyKwh) <= EnergyKwh(inp, x, k) <= Max(b.maxKwh, b.energyKwh)
      && 0.0 <= ChargeKw(inp, x, k) <= b.chargeKw && 0.0 <= DischargeKw(inp, x, k) <= b.dischargeKw
  {
    EnergySteps(inp, x);
    EnergyAccumulates(inp, x);
    AccumulatedIs(EnergiesKwh(inp, x), inp.battery.value.energyKwh, AdditionsKwh(inp, x), k);
    BatteryBounds(inp, x, k);
  }

  // Variable i of the battery's calls, if it is one, keeps to its bounds.
  ghost predicate PowerKept(inp: Input, x: Point, k: nat, i: nat)
    requires inp.Checked() && k < inp.Steps() && inp.battery.Some? && i < 6
  {
    var power, v := inp.PowerCalls(k), inp.At(k) + 3 + Variables(inp.PowerCalls(k)[..i]);
    power[i].Variable? ==> v < |x| && WithinBounds(x[v], power[i].lo, power[i].hi)
  }

  // The program in three parts, with what a solving point keeps to.
  ghost predicate Parted(ds: seq<Declaration>, x: Point, before: seq<Declaration>, block: seq<Declaration>,
                         after: seq<Declaration>, start: nat)
  {
    Fits(ds, |x|) && KeepsAll(ds, x) && ds == before + block + after && Variables(before) == start
  }

  lemma PowerParted(inp: Input, x: Point, k: nat)
    returns (ds: seq<Declaration>, before: seq<Declaration>, after: seq<Declaration>)
    requires Solves(inp, x) && k < inp.Steps() && inp.battery.Some?
    ensures Parted(ds, x, before, inp.PowerCalls(k), after, inp.At(k) + 3)
  {
    ds := inp.Calls();
    before, after := StorageStands(inp, k);
  }

  lemma PartIsKept(ds: seq<Declaration>, before: seq<Declaration>, block: seq<Declaration>, after: seq<Declaration>,
                   x: Point, start: nat, i: nat)
    requires Parted(ds, x, before, block, after, start) && i < |block| && block[i].Variable?
    ensures var v := start + Variables(block[..i]); v < |x| && WithinBounds(x[v], block[i].lo, block[i].hi)
  {
    BoundsHold(ds, before, block, after, i, x);
  }

  lemma PowerIsKept(inp: Input, ds: seq<Declaration>, before: seq<Declaration>, after: seq<Declaration>, x: Point, k: nat,
                    i: nat)
    requires inp.Checked() && k < inp.Steps() && inp.battery.Some? && i < 6
    requires Parted(ds, x, before, inp.PowerCalls(k), after, inp.At(k) + 3)
    ensures PowerKept(inp, x, k, i)
  {
    if inp.PowerCalls(k)[i].Variable? {
      PartIsKept(ds, before, inp.PowerCalls(k), after, x, inp.At(k) + 3, i);
    }
  }

  lemma PowersAreKept(inp: Input, x: Point, k: nat)
    requires Solves(inp, x) && k < inp.Steps() && inp.battery.Some?
    ensures forall i: nat :: i < 6 ==> PowerKept(inp, x, k, i)
  {
    var ds, before, after := PowerParted(inp, x, k);
    forall i: nat | i < 6
      ensures PowerKept(inp, x, k, i)
    {
      PowerIsKept(inp, ds, before, after, x, k, i);
    }
  }

  lemma BoundsFromKept(inp: Input, x: Point, k: nat)
    requires inp.Checked() && k < inp.Steps() && inp.battery.Some? && |x| == inp.Total()
    requires forall i: nat :: i < 6 ==> PowerKept(inp, x, k, i)
    ensures var b := inp.battery.value;
      && Min(b.minKwh, b.energyKwh) <= EnergyKwh(inp, x, k) <= Max(b.maxKwh, b.energyKwh)
      && 0.0 <= ChargeKw(inp, x, k) <= b.chargeKw && 0.0 <= DischargeKw(inp, x, k) <= b.dischargeKw
  {
    PrefixesSix(inp.PowerCalls(k));
    assert PowerKept(inp, x, k, 0) && PowerKept(inp, x, k, 1) && PowerKept(inp, x, k, 4);
  }

  lemma BatteryBounds(inp: Input, x: Point, k: nat)
    requires Solves(inp, x) && k < inp.Steps() && inp.battery.Some?
    ensures var b := inp.battery.value;
      && Min(b.minKwh, b.energyKwh) <= EnergyKwh(inp, x, k) <= Max(b.maxKwh, b.energyKwh)
      && 0.0 <= ChargeKw(inp, x, k) <= b.chargeKw && 0.0 <= DischargeKw(inp, x, k) <= b.dischargeKw
  {
    PowersAreKept(inp, x, k);
    BoundsFromKept(inp, x, k);
  }

  // ---------------------------------------------------------------- the room

  function RoomC(inp: Input, x: Point, k: nat): real
    requires inp.Checked() && k < inp.Steps() && |x| == inp.Total() && inp.heat.Some?
  {
    AtGrows(inp, k, inp.Steps());
    x[inp.HeatAt(k) + 1]
  }

  lemma DotOfHeat(inp: Input, x: Point, k: nat)
    requires inp.Checked() && k < inp.Steps() && |x| == inp.Total() && inp.heat.Some?
    ensures Inside(inp.HeatTerms(k), |x|)
    ensures var h := inp.heat.value;
      Dot(inp.HeatTerms(k), x)
      == RoomC(inp, x, k) - Weighted(inp.Warmed(h, k), HeatPumpKw(inp, x, k))
         - (if k == 0 then 0.0 else Weighted(inp.Kept(h), RoomC(inp, x, k - 1)))
  {
    var g, h := inp.HeatAt(k), inp.heat.value;
    AtGrows(inp, k, inp.Steps());
    DotTwo(g + 1, 1.0, g, -inp.Warmed(h, k), x);
    Units(inp.Warmed(h, k), x[g]);
    Units(0.0, x[g + 1]);
    if k > 0 {
      AtGrows(inp, k - 1, inp.Steps());
      DotOf(inp.HeatAt(k - 1) + 1, -inp.Kept(h), x);
      Units(inp.Kept(h), x[inp.HeatAt(k - 1) + 1]);
      DotAppend([(g + 1, 1.0), (g, -inp.Warmed(h, k))], [(inp.HeatAt(k - 1) + 1, -inp.Kept(h))], x);
    } else {
      assert inp.HeatTerms(k) == [(g + 1, 1.0), (g, -inp.Warmed(h, k))];
    }
  }

  lemma RoomCallStands(inp: Input, k: nat) returns (d: Declaration)
    requires inp.Checked() && k < inp.Steps() && inp.heat.Some?
    ensures var h := inp.heat.value;
      d in inp.Calls() && d == Equal(inp.HeatTerms(k), if k == 0 then inp.StartC(h) else inp.Gained(h, k))
  {
    var before, after := RoomStands(inp, k);
    d := inp.RoomCalls(k)[2];
    assert inp.Calls()[|before| + 2] == d;
  }

  lemma RoomFollows(inp: Input, x: Point, k: nat)
    requires Solves(inp, x) && k < inp.Steps() && inp.heat.Some?
    ensures var h := inp.heat.value;
      RoomC(inp, x, k)
      == (if k == 0 then inp.StartC(h) else inp.Gained(h, k) + Weighted(inp.Kept(h), RoomC(inp, x, k - 1)))
         + Weighted(inp.Warmed(h, k), HeatPumpKw(inp, x, k))
  {
    var d := RoomCallStands(inp, k);
    KeepsMember(inp.Calls(), x, d);
    DotOfHeat(inp, x, k);
  }

  ghost predicate RoomKept(inp: Input, x: Point, k: nat)
    requires inp.Checked() && k < inp.Steps() && inp.heat.Some?
  {
    inp.HeatAt(k) < |x| && WithinBounds(x[inp.HeatAt(k)], Some(0.0), Some(inp.heat.value.maxKw))
  }

  lemma RoomParted(inp: Input, x: Point, k: nat)
    returns (ds: seq<Declaration>, before: seq<Declaration>, after: seq<Declaration>)
    requires Solves(inp, x) && k < inp.Steps() && inp.heat.Some?
    ensures Parted(ds, x, before, inp.RoomCalls(k), after, inp.HeatAt(k))
  {
    ds := inp.Calls();
    before, after := RoomStands(inp, k);
  }

  lemma PartedRoomIsKept(inp: Input, ds: seq<Declaration>, before: seq<Declaration>, after: seq<Declaration>, x: Point,
                         k: nat)
    requires inp.Checked() && k < inp.Steps() && inp.heat.Some?
    requires Parted(ds, x, before, inp.RoomCalls(k), after, inp.HeatAt(k))
    ensures RoomKept(inp, x, k)
  {
    assert inp.RoomCalls(k)[..0] == [];
    BoundsHold(ds, before, inp.RoomCalls(k), after, 0, x);
  }

  lemma RoomIsKept(inp: Input, x: Point, k: nat)
    requires Solves(inp, x) && k < inp.Steps() && inp.heat.Some?
    ensures RoomKept(inp, x, k)
  {
    var ds, before, after := RoomParted(inp, x, k);
    PartedRoomIsKept(inp, ds, before, after, x, k);
  }

  lemma HeatPumpBounds(inp: Input, x: Point, k: nat)
    requires inp.Checked() && k < inp.Steps() && inp.heat.Some? && |x| == inp.Total() && RoomKept(inp, x, k)
    ensures 0.0 <= HeatPumpKw(inp, x, k) <= inp.heat.value.maxKw
  {
  }

  // In every plan the solver may return the room follows its heat balance: what it keeps of the temperature before, what
  // the heat pump adds, and what it gains anyway; and the heat pump keeps to its power.
  lemma RoomIsPlanned(inp: Input, x: Point, k: nat)
    requires Solves(inp, x) && k < inp.Steps() && inp.heat.Some?
    ensures var h := inp.heat.value;
      && RoomC(inp, x, k)
         == Weighted(inp.Kept(h), if k == 0 then h.indoorC else RoomC(inp, x, k - 1))
            + Weighted(inp.Warmed(h, k), HeatPumpKw(inp, x, k)) + inp.Gained(h, k)
      && 0.0 <= HeatPumpKw(inp, x, k) <= h.maxKw
  {
    RoomFollows(inp, x, k);
    RoomIsKept(inp, x, k);
    HeatPumpBounds(inp, x, k);
    StartIs(inp, inp.heat.value);
  }

  lemma StartIs(inp: Input, h: Heat)
    requires h.cap > 0.0 && |h.gainsKw| == |h.outdoorC| > 0
    ensures inp.StartC(h) == inp.Gained(h, 0) + Weighted(inp.Kept(h), h.indoorC)
  {
  }

  // ---------------------------------------------------------------- the expected dimming

  // What the cars that may be dimmed take, of the first n.
  function DimmedEvsKw(inp: Input, x: Point, k: nat, n: nat): real
    requires inp.Checked() && k < inp.Steps() && |x| == inp.Total() && n <= |inp.evs|
  {
    AtGrows(inp, k, inp.Steps());
    if n == 0 then 0.0
    else DimmedEvsKw(inp, x, k, n - 1) + (if inp.evs[n - 1].dimmable then x[inp.EvAt(k) + (n - 1)] else 0.0)
  }

  // What everything takes that may be dimmed.
  function DimmableKw(inp: Input, x: Point, k: nat): real
    requires inp.Checked() && k < inp.Steps() && |x| == inp.Total()
  {
    (if inp.battery.Some? && inp.battery.value.dimmable then BatteryKw(inp, x, k) else 0.0)
    + (if inp.heat.Some? && inp.heat.value.dimmable then HeatPumpKw(inp, x, k) else 0.0)
    + DimmedEvsKw(inp, x, k, |inp.evs|)
  }

  lemma DotAndOne(terms: Terms, v: nat, x: Point)
    requires Inside(terms, |x|) && v < |x|
    ensures Inside(terms + [(v, 1.0)], |x|) && Dot(terms + [(v, 1.0)], x) == Dot(terms, x) + x[v]
  {
    DotSnoc(terms, (v, 1.0), x);
  }

  lemma {:induction false} DotOfDimmedEvs(inp: Input, x: Point, k: nat, n: nat)
    requires inp.Checked() && k < inp.Steps() && |x| == inp.Total() && n <= |inp.evs|
    ensures Inside(inp.DimEvTerms(k, n), |x|) && Dot(inp.DimEvTerms(k, n), x) == DimmedEvsKw(inp, x, k, n)
  {
    AtGrows(inp, k, inp.Steps());
    if n > 0 {
      DotOfDimmedEvs(inp, x, k, n - 1);
      var v := inp.EvAt(k) + (n - 1);
      if inp.evs[n - 1].dimmable {
        DotAndOne(inp.DimEvTerms(k, n - 1), v, x);
      } else {
        assert inp.DimEvTerms(k, n - 1) + [] == inp.DimEvTerms(k, n - 1);
      }
    }
  }

  lemma DotOfDimmedStorage(inp: Input, x: Point, k: nat)
    requires inp.Checked() && k < inp.Steps() && |x| == inp.Total()
    ensures Inside(inp.DimStorageTerms(k), |x|)
    ensures Dot(inp.DimStorageTerms(k), x)
            == if inp.battery.Some? && inp.battery.value.dimmable then BatteryKw(inp, x, k) else 0.0
  {
    AtGrows(inp, k, inp.Steps());
    if inp.battery.Some? {
      DotPlusMinus(inp.At(k) + 3, inp.At(k) + 4, x);
    }
  }

  lemma DotOfDimmedHeat(inp: Input, x: Point, k: nat)
    requires inp.Checked() && k < inp.Steps() && |x| == inp.Total()
    ensures Inside(inp.DimHeatTerms(k), |x|)
    ensures Dot(inp.DimHeatTerms(k), x)
            == if inp.heat.Some? && inp.heat.value.dimmable then HeatPumpKw(inp, x, k) else 0.0
  {
    AtGrows(inp, k, inp.Steps());
    if inp.heat.Some? {
      DotOf(inp.HeatAt(k), 1.0, x);
      Units(0.0, x[inp.HeatAt(k)]);
    }
  }

  lemma DotOfDimmed(inp: Input, x: Point, k: nat)
    requires inp.Checked() && k < inp.Steps() && |x| == inp.Total()
    ensures Inside(inp.DimTerms(k), |x|) && Dot(inp.DimTerms(k), x) == DimmableKw(inp, x, k)
  {
    DotOfDimmedStorage(inp, x, k);
    DotOfDimmedHeat(inp, x, k);
    DotOfDimmedEvs(inp, x, k, |inp.evs|);
    DotAppend(inp.DimStorageTerms(k), inp.DimHeatTerms(k), x);
    DotAppend(inp.DimStorageTerms(k) + inp.DimHeatTerms(k), inp.DimEvTerms(k, |inp.evs|), x);
  }

  // In every plan the solver may return, everything that may be dimmed takes together, in every step of an expected
  // dimming, no more than the floor and the PV surplus that may be counted on.
  lemma DimmingIsPlanned(inp: Input, x: Point, k: nat)
    requires Solves(inp, x) && k < inp.Steps() && inp.dim[k]
    ensures if inp.DimTerms(k) == [] then DimmableKw(inp, x, k) == 0.0
            else DimmableKw(inp, x, k) <= inp.dimFloorKw + Max(inp.PvLow(k) - inp.BaseHigh(k), 0.0)
  {
    DotOfDimmed(inp, x, k);
    if inp.DimTerms(k) != [] {
      DimCallIsKept(inp, x, k);
    }
  }

  lemma DimCallIsKept(inp: Input, x: Point, k: nat)
    requires Solves(inp, x) && k < inp.Steps() && inp.dim[k] && inp.DimTerms(k) != [] && Inside(inp.DimTerms(k), |x|)
    ensures Dot(inp.DimTerms(k), x) <= inp.dimFloorKw + Max(inp.PvLow(k) - inp.BaseHigh(k), 0.0)
  {
    var d := DimCallStands(inp, k);
    KeepsMember(inp.Calls(), x, d);
  }

  lemma DimCallStands(inp: Input, k: nat) returns (d: Declaration)
    requires inp.Checked() && k < inp.Steps() && inp.dim[k] && inp.DimTerms(k) != []
    ensures d == AtMost(inp.DimTerms(k), inp.dimFloorKw + Max(inp.PvLow(k) - inp.BaseHigh(k), 0.0))
    ensures d in inp.Calls()
  {
    d := AtMost(inp.DimTerms(k), inp.dimFloorKw + Max(inp.PvLow(k) - inp.BaseHigh(k), 0.0));
    assert d in inp.DimCalls(k, inp.DimTerms(k));
    assert d in inp.StepCalls(k);
    StepMember(inp, k, d);
  }
}
