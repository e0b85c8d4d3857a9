// Cycles in which the controller does not keep what it promises. Each is a legal one: a valid site, a valid state, and a
// step of the controller.
module Shortfalls {
  import opened Basics
  import opened Sums
  import opened Sites
  import opened Control
  import opened Promise
  import Accounts
  import Allocation
  import Batteries
  import Budgets
  import PvLimits
  import WaterFill

  // As the controller starts, with any state of its random generator.
  function Opening(site: Site, rng: bv64): State {
    State(Accounts.Books(Accounts.Totals(1, 2026, 0.0, 0.0, 0.0), None), Budgets.Memory(false, None, None), [],
          Allocation.Memory(seq(|site.chargers|, i => false), seq(|site.chargers|, i => None)), 100.0, None,
          PvLimits.Followers([], []), rng)
  }

  function Noon(): Accounts.Clock {
    Accounts.Clock(43_200.0, 1, 2026)
  }

  function Dimming(): Commands {
    Commands(true, 100.0, false, None)
  }

  // A first cycle that dims: what is decided does not depend on the state.
  ghost predicate StartsDimmed(site: Site, g: Option<Guidance>, cmd: Commands, r: Readings, d: Decision) {
    && d.dim && d.m == Measure(site, r) && d.floorKw == FloorFor(site, cmd) && d.heldKw == d.m.SurplusKw()
    && d.outcome.budgetKw == Some(d.floorKw + d.heldKw.UnwrapOr(0.0) - site.marginKw)
    && d.batteryKw == Batteries.Setpoints(site, r.batteries,
                                          BalanceOf(site, g, d.m, r, true, d.floorKw, d.feedInPct))
  }

  lemma DimmedFirst(site: Site, g: Option<Guidance>, rng: bv64, clock: Accounts.Clock, cmd: Commands, r: Readings)
    requires site.Valid() && cmd.dim && clock.day == 1 && clock.year == 2026
    ensures Opening(site, rng).Valid(site)
    ensures var d := Decide(site, g, Opening(site, rng), clock, cmd, r);
      StartsDimmed(site, g, cmd, r, d) && d.feedInPct == PvLimits.FeedInPct(site, cmd, 0.0)
  {
    HeldFirst(clock.t, Measure(site, r).SurplusKw(), site.surplusHoldS);
  }

  lemma HeldFirst(t: real, kw: Option<real>, hold: real)
    ensures Budgets.Held([], t, kw, hold) == kw
  {
    if kw.Some? {
      var seen := [Budgets.Seen(t, kw.value)];
      assert Budgets.SeenNext([], t, kw, hold) == seen;
      assert seen[..|seen| - 1] == [];
      assert Budgets.Least(seen, kw.value) == Min(Budgets.Least([], kw.value), kw.value);
    }
  }

  // Where no car waits there is a legal cycle for any inputs, and the heat pumps get the last grant.
  lemma CycleWithoutCars(site: Site, g: Option<Guidance>, st: State, clock: Accounts.Clock, cmd: Commands, r: Readings)
    returns (c: Cycle)
    requires site.Valid() && st.Valid(site) && Allocation.Situation(site, r, g).Sound()
    requires forall i :: 0 <= i < |site.chargers| ==> !Allocation.Situation(site, r, g).Waits(i)
    requires Decide(site, g, st, clock, cmd, r).LoadsKw().Some?
    ensures Legal(site, st, c) && c.g == g && c.clock == clock && c.cmd == cmd && c.r == r
    ensures var s, d := Allocation.Situation(site, r, g), Decide(site, g, st, clock, cmd, r);
      && c.sp.batteryKw == d.batteryKw && c.sp.chargerA == s.Off()
      && c.sp.heatPumpKw == TwoShares(s, d.LoadsKw().value)
  {
    var s, d := Allocation.Situation(site, r, g), Decide(site, g, st, clock, cmd, r);
    var kw := d.LoadsKw().value;
    var last := Allocation.LastGrant(s, st.chargers, clock.t, kw);
    var spare := CurrentOf(Max(last.left, 0.0));
    NoneActive(s, st.chargers, clock.t, kw);
    NothingToFill(spare);
    var pct := PvPct(site, st, d, clock.t);
    var m := PvLimits.Matched(st.followers, |r.inverters|);
    var overs := PvLimits.Overs(site, r.inverters, m);
    var sinces := PvLimits.Sinces(m, overs, clock.t);
    var after := PvLimits.Followers(
      PvLimits.Limits(site, r.inverters, PvLimits.Ignoring(site, overs, sinces, clock.t), pct), sinces);
    var sp := Setpoints(pct, after.sentPct, s.Off(), last.hp, d.batteryKw, AskedKw(s, last.hp));
    SteppedTo(site, g, st, clock, cmd, r, d, sp, pct, after, [], spare);
    var st' := StateAfter(site, g, st, clock, r, d, sp, pct, after);
    c := Cycle(g, clock, cmd, r, sp, st', [], spare);
  }

  // What the heat pumps get where no car takes part.
  function TwoShares(s: Allocation.Situation, budgetKw: real): seq<real>
    requires s.Sound()
  {
    Allocation.TopUp(s, Allocation.FirstGrant(s, budgetKw), 0.0).hp
  }

  lemma FirstCycle(site: Site, g: Option<Guidance>, st: State, r: Readings, cmd: Commands, d: Decision, kw: real)
    returns (c: Cycle)
    requires site.Valid() && st.Valid(site) && Allocation.Situation(site, r, g).Sound()
    requires forall i :: 0 <= i < |site.chargers| ==> !Allocation.Situation(site, r, g).Waits(i)
    requires d == Decide(site, g, st, Noon(), cmd, r) && d.LoadsKw() == Some(kw)
    ensures Legal(site, st, c) && DecisionOf(site, st, c) == d
    ensures |c.sp.chargerA| == |site.chargers| && |c.sp.heatPumpKw| == |site.heatPumps|
    ensures var s := Allocation.Situation(site, r, g);
      && c.sp.chargerA == s.Off() && c.sp.heatPumpKw == TwoShares(s, kw) && c.sp.batteryKw == d.batteryKw
  {
    c := CycleWithoutCars(site, g, st, Noon(), cmd, r);
  }

  lemma NoneActive(s: Allocation.Situation, m: Allocation.Memory, t: real, budgetKw: real)
    requires s.Sound() && s.Remembers(m) && forall i :: 0 <= i < |s.site.chargers| ==> !s.Waits(i)
    ensures Allocation.Charging(s, m, t, budgetKw) == []
    ensures Allocation.LastGrant(s, m, t, budgetKw).hp == TwoShares(s, budgetKw)
  {
    var limited := s.Limited(|s.site.chargers|);
    s.LimitedIs(|s.site.chargers|);
    assert forall k :: 0 <= k < |limited| ==> limited[k] in limited;
    assert s.Order(m, t) == [];
  }

  lemma NothingToFill(spare: real)
    requires spare >= 0.0
    ensures WaterFill.Filled([], spare, [], spare)
  {
  }

  // ---------------------------------------------------------------- a plan that lifts the budget

  // Two heat pumps under a contract without a floor, the first of them exempt.
  function MisledSite(): Site {
    Site(Policy(Ch, Contract(0.0, 0.0), None, None, false), 10.0, 30.0, 1000.0, [],
         [HeatPump(12.0, 0.0, true), HeatPump(12.0, 0.0, false)], [], PlantOutput, 60.0, 0.0, 0.0, 1.0, 0.0, 0.0, 0.0,
         0.0, 0.0)
  }

  function MisledReadings(): Readings {
    Readings(None, None, None, [], [], [HeatPumpReading(true, 5.0, 5.0), HeatPumpReading(true, 5.0, 12.0)], [])
  }

  // The plan has the exempt one draw -10 kW.
  function MisleadingPlan(): Option<Guidance> {
    Some(Guidance(None, [], [Some(-10.0), None], true))
  }

  lemma MisledShares(s: Allocation.Situation)
    requires s == Allocation.Situation(MisledSite(), MisledReadings(), MisleadingPlan())
    ensures s.Sound() && s.ExemptKw() == -10.0 && s.ShareableKw(0.0) == 10.0 && TwoShares(s, 0.0) == [12.0, 10.0]
  {
    assert s.site.heatPumps[0].Valid() && s.site.heatPumps[1].Valid();
    assert s.ExemptHeatKw(0) == 0.0 && s.ExemptCarsKw(0) == 0.0;
    assert s.ExemptHeatKw(1) == -10.0 && s.ExemptHeatKw(2) == -10.0;
    var demand := s.HeatDemandsKw();
    assert demand == [-10.0, 12.0];
    var one := Allocation.Guaranteed(s.site, demand, 1, 10.0);
    assert one == Allocation.Grant([12.0], 10.0) by {
      assert Allocation.Guaranteed(s.site, demand, 0, 10.0) == Allocation.Grant([], 10.0);
    }
    var two := Allocation.Guaranteed(s.site, demand, 2, 10.0);
    assert two == Allocation.Grant([12.0, 4.8], 5.2);
    assert Allocation.ToppedUp(s.site, demand, 0, two.hp, 5.2) == Allocation.Grant([], 5.2);
    assert Allocation.ToppedUp(s.site, demand, 1, two.hp, 5.2) == Allocation.Grant([12.0], 5.2);
    assert Allocation.ToppedUp(s.site, demand, 2, two.hp, 5.2) == Allocation.Grant([12.0, 10.0], 0.0);
  }

  lemma MisledDecision(site: Site, d: Decision)
    requires site == MisledSite() && StartsDimmed(site, MisleadingPlan(), Dimming(), MisledReadings(), d)
    ensures d.LoadsKw() == Some(0.0) && PromisedKw(d) == 0.0
  {
    NothingSilent(site, MisledReadings());
    assert d.batteryKw == [] && Batteries.Discharging([]) == [] && Batteries.Charging([]) == [];
    assert d.DischargeKw() == 0.0 && d.ChargeKw() == 0.0;
  }

  lemma MisledGranted(site: Site)
    requires site == MisledSite()
    ensures Allocation.GrantedHeatKw(site, [12.0, 10.0]) == 10.0 && Allocation.GrantedCarsKw(site, []) == 0.0
  {
    assert [12.0, 10.0][..1] == [12.0] && [12.0][..0] == [];
    assert Allocation.GrantedHeatKw(site, []) == 0.0;
    assert Allocation.GrantedHeatKw(site, [12.0]) == 0.0;
  }

  // A negative plan for an exempt device lifts the limited one to 10 kW, with a floor, a surplus and a discharge of
  // nothing.
  lemma PlanBreaksTheFloor(site: Site, rng: bv64, st: State) returns (c: Cycle)
    requires site == MisledSite() && st == Opening(site, rng)
    ensures Legal(site, st, c) && DecisionOf(site, st, c).dim
    ensures |c.sp.chargerA| == |site.chargers| && |c.sp.heatPumpKw| == |site.heatPumps|
    ensures GrantedKw(site, c.sp) == 10.0 && PromisedKw(DecisionOf(site, st, c)) == 0.0
  {
    var g, r := MisleadingPlan(), MisledReadings();
    MisledShares(Allocation.Situation(site, r, g));
    DimmedFirst(site, g, rng, Noon(), Dimming(), r);
    MisledDecision(site, Decide(site, g, st, Noon(), Dimming(), r));
    MisledGranted(site);
    c := FirstCycle(site, g, st, r, Dimming(), Decide(site, g, st, Noon(), Dimming(), r), 0.0);
  }

  lemma NothingSilent(site: Site, r: Readings)
    requires site == MisledSite() && r == MisledReadings()
    ensures Measure(site, r).reserveKw == 0.0
  {
    assert ChargerReserveKw(site, r.chargers, 0) == 0.0 && HeatReserveKw(site, r.heatPumps, 0) == 0.0;
    assert HeatReserveKw(site, r.heatPumps, 1) == 0.0 && HeatReserveKw(site, r.heatPumps, 2) == 0.0;
  }

  // ---------------------------------------------------------------- a negative failsafe current

  // A charger with a failsafe current of -20 A, and a heat pump.
  function BackwardSite(): Site {
    Site(Policy(Ch, Contract(0.0, 0.0), None, None, false), 10.0, 30.0, 1000.0, [Charger(16.0, -20.0, false)],
         [HeatPump(12.0, 0.0, false)], [], PlantOutput, 60.0, 0.0, 0.0, 1.0, 0.0, 0.0, 0.0, 0.0, 0.0)
  }

  // The charger is silent.
  function BackwardReadings(): Readings {
    Readings(None, None, None, [], [ChargerReading(false, false, 0.0, 0.0, None, None, None)],
             [HeatPumpReading(true, 5.0, 12.0)], [])
  }

  lemma BackwardShares(s: Allocation.Situation)
    requires s == Allocation.Situation(BackwardSite(), BackwardReadings(), None)
    ensures s.Sound() && s.ShareableKw(13.8) == 13.8 && TwoShares(s, 13.8) == [12.0] && !s.Waits(0) && s.Off() == [0.0]
  {
    assert s.site.heatPumps[0].Valid() && s.site.chargers[0].Valid();
    assert s.ExemptHeatKw(0) == 0.0 && s.ExemptCarsKw(0) == 0.0;
    assert s.ExemptHeatKw(1) == 0.0 && s.ExemptCarsKw(1) == 0.0;
    var demand := s.HeatDemandsKw();
    assert demand == [12.0];
    assert Allocation.Guaranteed(s.site, demand, 0, 13.8) == Allocation.Grant([], 13.8);
    assert Allocation.Guaranteed(s.site, demand, 1, 13.8) == Allocation.Grant([4.8], 9.0);
    assert Allocation.ToppedUp(s.site, demand, 0, [4.8], 9.0) == Allocation.Grant([], 9.0);
    assert Allocation.ToppedUp(s.site, demand, 1, [4.8], 9.0) == Allocation.Grant([12.0], 1.8);
  }

  lemma BackwardReserve(site: Site, r: Readings)
    requires site == BackwardSite() && r == BackwardReadings()
    ensures Measure(site, r).reserveKw == -13.8
  {
    assert ChargerReserveKw(site, r.chargers, 0) == 0.0 && HeatReserveKw(site, r.heatPumps, 0) == 0.0;
    assert ChargerReserveKw(site, r.chargers, 1) == -13.8 && HeatReserveKw(site, r.heatPumps, 1) == 0.0;
  }

  lemma BackwardDecision(site: Site, d: Decision)
    requires site == BackwardSite() && StartsDimmed(site, None, Dimming(), BackwardReadings(), d)
    ensures d.LoadsKw() == Some(13.8) && PromisedKw(d) == 0.0
  {
    BackwardReserve(site, BackwardReadings());
    assert d.batteryKw == [] && Batteries.Discharging([]) == [] && Batteries.Charging([]) == [];
    assert d.DischargeKw() == 0.0 && d.ChargeKw() == 0.0;
  }

  lemma BackwardGranted(site: Site)
    requires site == BackwardSite()
    ensures Allocation.GrantedHeatKw(site, [12.0]) == 12.0 && Allocation.GrantedCarsKw(site, [0.0]) == 0.0
  {
    assert [12.0][..0] == [] && [0.0][..0] == [];
    assert Allocation.GrantedHeatKw(site, []) == 0.0 && Allocation.GrantedCarsKw(site, []) == 0.0;
  }

  // A silent charger with a negative failsafe current makes room for the heat pump's 12 kW, with a floor, a surplus and a
  // discharge of nothing.
  lemma NegativeFailsafeBreaksTheFloor(site: Site, rng: bv64, st: State) returns (c: Cycle)
    requires site == BackwardSite() && st == Opening(site, rng)
    ensures Legal(site, st, c) && DecisionOf(site, st, c).dim
    ensures |c.sp.chargerA| == |site.chargers| && |c.sp.heatPumpKw| == |site.heatPumps|
    ensures GrantedKw(site, c.sp) == 12.0 && PromisedKw(DecisionOf(site, st, c)) == 0.0
  {
    var r := BackwardReadings();
    BackwardShares(Allocation.Situation(site, r, None));
    DimmedFirst(site, None, rng, Noon(), Dimming(), r);
    BackwardDecision(site, Decide(site, None, st, Noon(), Dimming(), r));
    BackwardGranted(site);
    c := FirstCycle(site, None, st, r, Dimming(), Decide(site, None, st, Noon(), Dimming(), r), 13.8);
  }

  // ---------------------------------------------------------------- charging from the grid while dimmed

  // A site under the law for DE with a battery and 20 kW of PV.
  function SunnySite(): Site {
    Site(Policy(De, De14a, None, None, false), 20.0, 30.0, 20_000.0, [], [],
         [Battery(40.0, 20.0, 20.0, 0.0, 100.0)], PlantOutput, 60.0, 0.0, 0.0, 1.0, 0.0, 0.0, 0.0, 0.0, 0.0)
  }

  // 5 kW of PV, of which 3 kW are exported; the sun would allow 15 kW.
  function SunnyReadings(): Readings {
    Readings(Some(-3.0), Some(5.0), Some(15.0), [], [], [], [BatteryReading(true, 50.0, 0.0)])
  }

  function GreedyPlan(): Option<Guidance> {
    Some(Guidance(Some(100.0), [], [], true))
  }

  function SunnyDimming(): Commands {
    Commands(true, 25.0, false, None)
  }

  lemma SunnyMeasures(site: Site, r: Readings)
    requires site == SunnySite() && r == SunnyReadings()
    ensures Measure(site, r) == Measures(Some(-3.0), Some(5.0), 0.0, 0.0, 0.0)
  {
    assert BatteriesKw(r.batteries, 0) == 0.0 && BatteriesKw(r.batteries, 1) == 0.0;
  }

  lemma SunnyFloor(site: Site)
    requires site == SunnySite()
    ensures site.Valid() && FloorFor(site, SunnyDimming()) == 4.2
  {
    assert site.batteries[0].Valid();
    assert RatedKw(site.heatPumps) == [];
    assert SharedKw(1) == 0.0;
  }

  lemma SunnyRoom(site: Site, r: Readings)
    requires site == SunnySite() && r == SunnyReadings()
    ensures Batteries.RoomKw(site, r.batteries) == 20.0
  {
    var ranges := Batteries.Ranges(site.batteries, r.batteries);
    assert Batteries.MostCharge(site.batteries[0], 50.0) == 20.0;
    assert ranges[0].most == 20.0;
    assert Batteries.MostKw(ranges, 0) == 0.0 && Batteries.MostKw(ranges, 1) == 20.0;
  }

  lemma SunnyDecision(site: Site, d: Decision)
    requires site == SunnySite() && StartsDimmed(site, GreedyPlan(), SunnyDimming(), SunnyReadings(), d)
    requires d.feedInPct == 25.0
    ensures d.ChargeKw() == 13.0 && d.m.SurplusKw() == Some(3.0) && d.LoadsKw().Some?
    ensures PromisedKw(d) == 7.2
  {
    var r := SunnyReadings();
    SunnyMeasures(site, r);
    SunnyFloor(site);
    SunnyRoom(site, r);
    var balance := BalanceOf(site, GreedyPlan(), d.m, r, true, d.floorKw, d.feedInPct);
    assert balance.WantKw() == Some(13.0);
    Batteries.ChargingIs(site, r.batteries, balance);
    Batteries.SetpointsHaveOneSign(site, r.batteries, balance);
  }

  // Dimmed, with 3 kW of surplus measured, the battery is told to charge 13 kW: 10 kW come from the grid, and the site as
  // a whole takes more than the floor, the surplus and the discharge together.
  lemma PlanChargesFromTheGrid(site: Site, rng: bv64, st: State) returns (c: Cycle)
    requires site == SunnySite() && st == Opening(site, rng)
    ensures Legal(site, st, c) && DecisionOf(site, st, c).dim
    ensures Sum(Batteries.Charging(c.sp.batteryKw)) == 13.0 && Measure(site, c.r).SurplusKw() == Some(3.0)
    ensures PromisedKw(DecisionOf(site, st, c)) == 7.2
  {
    var g, r, cmd := GreedyPlan(), SunnyReadings(), SunnyDimming();
    SunnyFloor(site);
    DimmedFirst(site, g, rng, Noon(), cmd, r);
    var d := Decide(site, g, st, Noon(), cmd, r);
    SunnyDecision(site, d);
    c := FirstCycle(site, g, st, r, cmd, d, d.LoadsKw().value);
  }
}
