// What the controller promises, for one cycle and for every run (README.md:170 of the repository).
module Promise {
  import opened Basics
  import opened Sums
  import opened Sites
  import opened Control
  import Accounts
  import Allocation
  import Batteries
  import Budgets
  import WaterFill

  // One cycle: what came in, what went out, and the state after it.
  datatype Cycle = Cycle(
    g: Option<Guidance>, clock: Accounts.Clock, cmd: Commands, r: Readings, sp: Setpoints, after: State,
    amps: WaterFill.Amps, spare: real)

  ghost predicate Legal(site: Site, st: State, c: Cycle) {
    && site.Valid() && st.Valid(site) && Allocation.Situation(site, c.r, c.g).Sound()
    && Stepped(site, c.g, st, c.clock, c.cmd, c.r, c.sp, c.after, c.amps, c.spare)
  }

  function DecisionOf(site: Site, st: State, c: Cycle): Decision
    requires site.Valid() && st.Valid(site)
  {
    Decide(site, c.g, st, c.clock, c.cmd, c.r)
  }

  // What the loads that may be limited are granted.
  function GrantedKw(site: Site, sp: Setpoints): real
    requires |sp.chargerA| == |site.chargers| && |sp.heatPumpKw| == |site.heatPumps|
  {
    Allocation.GrantedHeatKw(site, sp.heatPumpKw) + Allocation.GrantedCarsKw(site, sp.chargerA)
  }

  // What is left of the floor and the lasting surplus for them.
  function ForLoadsKw(site: Site, d: Decision): real {
    d.floorKw + d.heldKw.UnwrapOr(0.0) - site.marginKw + d.DischargeKw() - d.ChargeKw() - d.m.reserveKw
  }

  // The power that sharing them leaves over, which is known before.
  function UnusedKw(site: Site, g: Option<Guidance>, st: State, clock: Accounts.Clock, r: Readings, d: Decision): real
    requires st.Valid(site) && Allocation.Situation(site, r, g).Sound()
  {
    Allocation.UnusedKw(Allocation.Situation(site, r, g), st.chargers, clock.t, ForLoadsKw(site, d))
  }

  // ---------------------------------------------------------------- one cycle

  // What a decision to dim comes with.
  ghost predicate DimmedTo(site: Site, cmd: Commands, r: Readings, d: Decision) {
    && d.m == Measure(site, r) && d.floorKw == FloorFor(site, cmd)
    && d.outcome.budgetKw == Some(d.floorKw + d.heldKw.UnwrapOr(0.0) - site.marginKw)
    && d.heldKw.UnwrapOr(0.0) <= d.m.SurplusKw().UnwrapOr(0.0)
  }

  lemma DimmedDecision(site: Site, g: Option<Guidance>, st: State, clock: Accounts.Clock, cmd: Commands, r: Readings)
    requires site.Valid() && st.Valid(site) && Decide(site, g, st, clock, cmd, r).dim
    ensures DimmedTo(site, cmd, r, Decide(site, g, st, clock, cmd, r))
  {
    var m := Measure(site, r);
    if m.SurplusKw().Some? {
      Budgets.LeastIs(Budgets.SeenNext(st.seen, clock.t, m.SurplusKw(), site.surplusHoldS), m.SurplusKw().value);
    }
  }

  // While dimmed, grants and spare current are exactly the floor plus the lasting surplus, less margin, charging,
  // silent and exempt devices, plus discharging, where that is positive.
  lemma DimmedGrantsAddUp(site: Site, g: Option<Guidance>, st: State, clock: Accounts.Clock, cmd: Commands, r: Readings,
                          d: Decision, sp: Setpoints, amps: WaterFill.Amps, spare: real)
    requires st.Valid(site) && Allocation.Situation(site, r, g).Sound() && DimmedTo(site, cmd, r, d)
    requires Shared(site, g, st, clock, r, d, sp, amps, spare)
    ensures |sp.chargerA| == |site.chargers| && |sp.heatPumpKw| == |site.heatPumps| && spare >= 0.0
    ensures GrantedKw(site, sp) + KwOf(spare)
            == Max(Max(ForLoadsKw(site, d), 0.0) - Allocation.Situation(site, r, g).ExemptKw(), 0.0)
  {
    Allocation.GrantsAddUp(Allocation.Situation(site, r, g), st.chargers, clock.t, ForLoadsKw(site, d), sp.chargerA,
                           sp.heatPumpKw, amps, spare);
  }

  // So all grants together are known from what comes in.
  lemma DimmedGrantsAre(site: Site, g: Option<Guidance>, st: State, clock: Accounts.Clock, cmd: Commands, r: Readings,
                        d: Decision, sp: Setpoints, amps: WaterFill.Amps, spare: real)
    requires st.Valid(site) && Allocation.Situation(site, r, g).Sound() && DimmedTo(site, cmd, r, d)
    requires Shared(site, g, st, clock, r, d, sp, amps, spare)
    ensures |sp.chargerA| == |site.chargers| && |sp.heatPumpKw| == |site.heatPumps|
    ensures GrantedKw(site, sp)
            == Max(Max(ForLoadsKw(site, d), 0.0) - Allocation.Situation(site, r, g).ExemptKw(), 0.0)
               - UnusedKw(site, g, st, clock, r, d)
    ensures UnusedKw(site, g, st, clock, r, d) >= 0.0
  {
    Allocation.GrantsAre(Allocation.Situation(site, r, g), st.chargers, clock.t, ForLoadsKw(site, d), sp.chargerA,
                         sp.heatPumpKw, amps, spare);
  }

  lemma BatterySumsAreNotNegative(d: Decision)
    ensures d.DischargeKw() >= 0.0 && d.ChargeKw() >= 0.0
  {
    Batteries.SumNotNegative(Batteries.Discharging(d.batteryKw));
    Batteries.SumNotNegative(Batteries.Charging(d.batteryKw));
  }

  lemma FloorArithmetic(site: Site, d: Decision, granted: real, spare: real, exempt: real, surplus: real)
    requires granted + KwOf(spare) == Max(Max(ForLoadsKw(site, d), 0.0) - exempt, 0.0) && spare >= 0.0
    requires site.marginKw >= 0.0 && d.m.reserveKw >= 0.0 && exempt >= 0.0 && d.floorKw >= 0.0
    requires d.heldKw.UnwrapOr(0.0) <= surplus && surplus >= 0.0
    requires d.DischargeKw() >= 0.0 && d.ChargeKw() >= 0.0
    ensures granted <= Max(ForLoadsKw(site, d) - exempt, 0.0) && granted <= d.floorKw + surplus + d.DischargeKw()
  {
  }

  // The main promise: during a dimming the loads get at most the floor, the PV surplus and what the battery
  // discharges, whatever the readings and the plan say, as long as neither the exempt draw nor the reserve for
  // silent devices is negative.
  lemma FloorIsKept(site: Site, g: Option<Guidance>, st: State, clock: Accounts.Clock, cmd: Commands, r: Readings,
                    d: Decision, sp: Setpoints, amps: WaterFill.Amps, spare: real)
    requires site.Valid() && st.Valid(site) && Allocation.Situation(site, r, g).Sound() && DimmedTo(site, cmd, r, d)
    requires Shared(site, g, st, clock, r, d, sp, amps, spare)
    requires Measure(site, r).reserveKw >= 0.0 && Allocation.Situation(site, r, g).ExemptKw() >= 0.0
    ensures |sp.chargerA| == |site.chargers| && |sp.heatPumpKw| == |site.heatPumps|
    ensures GrantedKw(site, sp) <= Max(ForLoadsKw(site, d) - Allocation.Situation(site, r, g).ExemptKw(), 0.0)
    ensures GrantedKw(site, sp) <= FloorFor(site, cmd) + Measure(site, r).SurplusKw().UnwrapOr(0.0) + d.DischargeKw()
  {
    DimmedGrantsAddUp(site, g, st, clock, cmd, r, d, sp, amps, spare);
    BatterySumsAreNotNegative(d);
    FloorIsNotNegative(site, cmd);
    FloorArithmetic(site, d, GrantedKw(site, sp), spare, Allocation.Situation(site, r, g).ExemptKw(),
                    Measure(site, r).SurplusKw().UnwrapOr(0.0));
  }

  // ---------------------------------------------------------------- exactly when

  // The promise.
  function PromisedKw(d: Decision): real {
    d.floorKw + d.m.SurplusKw().UnwrapOr(0.0) + d.DischargeKw()
  }

  // How much less than that the loads may use: the margin, what the batteries charge, the surplus that has not lasted,
  // and what silent devices may draw.
  function HeldBackKw(site: Site, d: Decision): real {
    site.marginKw + d.ChargeKw() + (d.m.SurplusKw().UnwrapOr(0.0) - d.heldKw.UnwrapOr(0.0)) + d.m.reserveKw
  }

  lemma PromisedIsNotNegative(site: Site, cmd: Commands, r: Readings, d: Decision)
    requires site.Valid() && DimmedTo(site, cmd, r, d)
    ensures PromisedKw(d) >= 0.0 && ForLoadsKw(site, d) == PromisedKw(d) - HeldBackKw(site, d)
  {
    BatterySumsAreNotNegative(d);
    FloorIsNotNegative(site, cmd);
  }

  // What there is to share keeps to the promise exactly when what is held back and the exempt draw together are not
  // negative, and a negative exempt draw is not larger than the promise. All of it is known before anything is shared.
  lemma ShareableIsAsPromisedExactly(site: Site, g: Option<Guidance>, cmd: Commands, r: Readings, d: Decision)
    requires site.Valid() && Allocation.Situation(site, r, g).Sound() && DimmedTo(site, cmd, r, d)
    ensures var s := Allocation.Situation(site, r, g);
      s.ShareableKw(ForLoadsKw(site, d)) <= PromisedKw(d)
      <==> HeldBackKw(site, d) + s.ExemptKw() >= 0.0 && PromisedKw(d) + s.ExemptKw() >= 0.0
  {
    PromisedIsNotNegative(site, cmd, r, d);
  }

  // The grants keep to the promise exactly when what is held back, the exempt draw and what sharing leaves over are
  // together not negative, and neither is the promise with the exempt draw and what is left over.
  lemma GrantsAreAsPromisedExactly(site: Site, g: Option<Guidance>, st: State, clock: Accounts.Clock, cmd: Commands,
                                   r: Readings, d: Decision, sp: Setpoints, amps: WaterFill.Amps, spare: real)
    requires site.Valid() && st.Valid(site) && Allocation.Situation(site, r, g).Sound() && DimmedTo(site, cmd, r, d)
    requires Shared(site, g, st, clock, r, d, sp, amps, spare)
    ensures |sp.chargerA| == |site.chargers| && |sp.heatPumpKw| == |site.heatPumps|
    ensures var s, unused := Allocation.Situation(site, r, g), UnusedKw(site, g, st, clock, r, d);
      && (GrantedKw(site, sp) <= PromisedKw(d)
          <==> HeldBackKw(site, d) + s.ExemptKw() + unused >= 0.0 && PromisedKw(d) + s.ExemptKw() + unused >= 0.0)
  {
    DimmedGrantsAre(site, g, st, clock, cmd, r, d, sp, amps, spare);
    PromisedIsNotNegative(site, cmd, r, d);
    var s, unused := Allocation.Situation(site, r, g), UnusedKw(site, g, st, clock, r, d);
    ExactlyWithin(ForLoadsKw(site, d), s.ExemptKw(), GrantedKw(site, sp), unused, PromisedKw(d));
  }

  lemma ExactlyWithin(forLoads: real, exempt: real, granted: real, unused: real, bound: real)
    requires granted + unused == Max(Max(forLoads, 0.0) - exempt, 0.0) && bound + unused >= 0.0
    ensures granted <= bound <==> forLoads - exempt <= bound + unused && -exempt <= bound + unused
  {
  }

  // The same of grants and charging together: the batteries must charge no more than the promise leaves over.
  lemma TotalIsAsPromisedExactly(site: Site, g: Option<Guidance>, st: State, clock: Accounts.Clock, cmd: Commands,
                                 r: Readings, d: Decision, sp: Setpoints, amps: WaterFill.Amps, spare: real)
    requires site.Valid() && st.Valid(site) && Allocation.Situation(site, r, g).Sound() && DimmedTo(site, cmd, r, d)
    requires Shared(site, g, st, clock, r, d, sp, amps, spare)
    ensures |sp.chargerA| == |site.chargers| && |sp.heatPumpKw| == |site.heatPumps|
    ensures var exempt, unused := Allocation.Situation(site, r, g).ExemptKw(), UnusedKw(site, g, st, clock, r, d);
      var left := PromisedKw(d) + unused;
      && (GrantedKw(site, sp) + d.ChargeKw() <= PromisedKw(d)
          <==> HeldBackKw(site, d) - d.ChargeKw() + exempt + unused >= 0.0
               && d.ChargeKw() <= left + exempt && d.ChargeKw() <= left)
      && (d.m.reserveKw >= 0.0 && exempt >= 0.0 ==>
            (GrantedKw(site, sp) + d.ChargeKw() <= PromisedKw(d) <==> d.ChargeKw() <= left))
  {
    DimmedGrantsAre(site, g, st, clock, cmd, r, d, sp, amps, spare);
    PromisedIsNotNegative(site, cmd, r, d);
    BatterySumsAreNotNegative(d);
    var exempt, unused := Allocation.Situation(site, r, g).ExemptKw(), UnusedKw(site, g, st, clock, r, d);
    TotalWithin(ForLoadsKw(site, d), exempt, GrantedKw(site, sp), unused, PromisedKw(d), d.ChargeKw());
    assert d.heldKw.UnwrapOr(0.0) <= d.m.SurplusKw().UnwrapOr(0.0);
  }

  lemma TotalWithin(forLoads: real, exempt: real, granted: real, unused: real, bound: real, charge: real)
    requires granted + unused == Max(Max(forLoads, 0.0) - exempt, 0.0)
    ensures var left := bound + unused;
      granted + charge <= bound
      <==> forLoads - exempt + charge <= left && charge - exempt <= left && charge <= left
  {
  }

  // So it holds whenever the batteries do not charge from the grid and no device reports or is granted a negative power.
  lemma TotalIsKeptWithoutGridCharging(site: Site, g: Option<Guidance>, st: State, clock: Accounts.Clock, cmd: Commands,
                                       r: Readings, d: Decision, sp: Setpoints, amps: WaterFill.Amps, spare: real)
    requires site.Valid() && st.Valid(site) && Allocation.Situation(site, r, g).Sound() && DimmedTo(site, cmd, r, d)
    requires Shared(site, g, st, clock, r, d, sp, amps, spare)
    requires var balance := BalanceOf(site, g, d.m, r, true, d.floorKw, d.feedInPct);
      d.batteryKw == Batteries.Setpoints(site, r.batteries, balance)
      && !Batteries.ChargesFromGrid(site, r.batteries, balance)
    requires d.m.reserveKw >= 0.0 && d.m.loadsKw >= 0.0 && Allocation.Situation(site, r, g).ExemptKw() >= 0.0
    ensures |sp.chargerA| == |site.chargers| && |sp.heatPumpKw| == |site.heatPumps|
    ensures GrantedKw(site, sp) + d.ChargeKw() <= PromisedKw(d)
  {
    var balance := BalanceOf(site, g, d.m, r, true, d.floorKw, d.feedInPct);
    TotalIsAsPromisedExactly(site, g, st, clock, cmd, r, d, sp, amps, spare);
    Batteries.ChargesFromMeasuredPvExactly(site, r.batteries, balance);
    DimmedGrantsAre(site, g, st, clock, cmd, r, d, sp, amps, spare);
    BatterySumsAreNotNegative(d);
    FloorIsNotNegative(site, cmd);
    assert balance.LeftKw() <= d.m.SurplusKw().UnwrapOr(0.0);
  }

  // ---------------------------------------------------------------- when reserve and exempt draw are not negative

  predicate NoNegativeFailsafe(site: Site) {
    forall i :: 0 <= i < |site.chargers| && !site.ExemptCharger(i) ==> site.chargers[i].failsafeA >= 0.0
  }

  lemma {:induction false} ChargerReserveNotNegative(site: Site, r: seq<ChargerReading>, n: nat)
    requires n <= |r| && n <= |site.chargers| && NoNegativeFailsafe(site)
    ensures ChargerReserveKw(site, r, n) >= 0.0
  {
    if n > 0 {
      ChargerReserveNotNegative(site, r, n - 1);
    }
  }

  lemma {:induction false} HeatReserveNotNegative(site: Site, r: seq<HeatPumpReading>, n: nat)
    requires n <= |r| && n <= |site.heatPumps| && site.Valid()
    ensures HeatReserveKw(site, r, n) >= 0.0
  {
    if n > 0 {
      HeatReserveNotNegative(site, r, n - 1);
      assert site.heatPumps[n - 1].Valid();
    }
  }

  // Only charger i is silent.
  function Silent(site: Site, i: nat): seq<ChargerReading> {
    seq(|site.chargers|, j => ChargerReading(j != i, false, 0.0, 0.0, None, None, None))
  }

  lemma {:induction false} SilentReserve(site: Site, i: nat, n: nat)
    requires i < |site.chargers| && n <= |site.chargers| && !site.ExemptCharger(i)
    ensures ChargerReserveKw(site, Silent(site, i), n) == if i < n then KwOf(site.chargers[i].failsafeA) else 0.0
  {
    if n > 0 {
      SilentReserve(site, i, n - 1);
    }
  }

  // The reserve for silent devices is never negative exactly when no failsafe current is, which validation does
  // not check.
  lemma ReserveIsSafe(site: Site)
    requires site.Valid()
    ensures (forall r: Readings :: Measure(site, r).reserveKw >= 0.0) <==> NoNegativeFailsafe(site)
  {
    if NoNegativeFailsafe(site) {
      forall r: Readings
        ensures Measure(site, r).reserveKw >= 0.0
      {
        ChargerReserveNotNegative(site, r.chargers, Least(|site.chargers|, |r.chargers|));
        HeatReserveNotNegative(site, r.heatPumps, Least(|site.heatPumps|, |r.heatPumps|));
      }
    } else {
      var i :| 0 <= i < |site.chargers| && !site.ExemptCharger(i) && site.chargers[i].failsafeA < 0.0;
      var r := Readings(None, None, None, [], Silent(site, i), [], []);
      SilentReserve(site, i, |site.chargers|);
      assert Measure(site, r).reserveKw < 0.0;
    }
  }

  lemma {:induction false} ExemptHeatNotNegative(s: Allocation.Situation, n: nat)
    requires n <= |s.site.heatPumps|
    requires forall i :: 0 <= i < |s.site.heatPumps| && s.site.ExemptHeatPump(i) ==> s.HeatDemandKw(i) >= 0.0
    ensures s.ExemptHeatKw(n) >= 0.0
  {
    if n > 0 {
      ExemptHeatNotNegative(s, n - 1);
    }
  }

  lemma {:induction false} ExemptCarsNotNegative(s: Allocation.Situation, n: nat)
    requires s.Sound() && n <= |s.site.chargers|
    requires forall i :: 0 <= i < |s.site.chargers| && s.Waits(i) && s.site.ExemptCharger(i) ==>
               s.r.chargers[i].powerKw >= 0.0
    ensures s.ExemptCarsKw(n) >= 0.0
  {
    if n > 0 {
      ExemptCarsNotNegative(s, n - 1);
    }
  }

  // Under a contract the exempt draw is not negative when no exempt device reports or is planned a negative power.
  lemma ExemptDrawIsSafe(s: Allocation.Situation)
    requires s.Sound()
    requires forall i :: 0 <= i < |s.site.heatPumps| && s.site.ExemptHeatPump(i) ==> s.HeatDemandKw(i) >= 0.0
    requires forall i :: 0 <= i < |s.site.chargers| && s.Waits(i) && s.site.ExemptCharger(i) ==>
               s.r.chargers[i].powerKw >= 0.0
    ensures s.ExemptKw() >= 0.0
  {
    ExemptHeatNotNegative(s, |s.site.heatPumps|);
    ExemptCarsNotNegative(s, |s.site.chargers|);
  }

  predicate NothingExempt(site: Site) {
    && (forall i :: 0 <= i < |site.chargers| ==> !site.ExemptCharger(i))
    && (forall i :: 0 <= i < |site.heatPumps| ==> !site.ExemptHeatPump(i))
  }

  lemma {:induction false} NoExemptHeat(s: Allocation.Situation, n: nat)
    requires n <= |s.site.heatPumps| && NothingExempt(s.site)
    ensures s.ExemptHeatKw(n) == 0.0
  {
    if n > 0 {
      NoExemptHeat(s, n - 1);
    }
  }

  lemma {:induction false} NoExemptCars(s: Allocation.Situation, n: nat)
    requires s.Sound() && n <= |s.site.chargers| && NothingExempt(s.site)
    ensures s.ExemptCarsKw(n) == 0.0
  {
    if n > 0 {
      NoExemptCars(s, n - 1);
    }
  }

  // Heat pump i asks for -1 kW.
  function Asking(site: Site, i: nat): Readings {
    Readings(None, None, None, [], [],
             seq(|site.heatPumps|, j => HeatPumpReading(true, 0.0, if j == i then -1.0 else 0.0)), [])
  }

  lemma {:induction false} AskingDraws(site: Site, i: nat, n: nat)
    requires site.Valid() && i < |site.heatPumps| && n <= |site.heatPumps| && site.ExemptHeatPump(i)
    ensures Allocation.Situation(site, Asking(site, i), None).ExemptHeatKw(n) == if i < n then -1.0 else 0.0
  {
    if n > 0 {
      AskingDraws(site, i, n - 1);
      assert site.heatPumps[n - 1].Valid();
    }
  }

  lemma {:induction false} AskingHasNoCars(site: Site, i: nat, n: nat)
    requires site.Valid() && n <= |site.chargers|
    ensures Allocation.Situation(site, Asking(site, i), None).ExemptCarsKw(n) == 0.0
  {
    if n > 0 {
      AskingHasNoCars(site, i, n - 1);
    }
  }

  // The car at charger i waits and feeds back 1 kW.
  function Feeding(site: Site, i: nat): Readings {
    Readings(None, None, None, [],
             seq(|site.chargers|, j => ChargerReading(true, j == i, if j == i then -1.0 else 0.0, 0.0, None, None, None)),
             [], [])
  }

  lemma {:induction false} FeedingDraws(site: Site, i: nat, n: nat)
    requires site.Valid() && i < |site.chargers| && n <= |site.chargers| && site.ExemptCharger(i)
    ensures Allocation.Situation(site, Feeding(site, i), None).ExemptCarsKw(n) == if i < n then -1.0 else 0.0
  {
    if n > 0 {
      FeedingDraws(site, i, n - 1);
      assert site.chargers[n - 1].Valid();
    }
  }

  lemma {:induction false} FeedingHasNoHeat(site: Site, i: nat, n: nat)
    requires n <= |site.heatPumps|
    ensures Allocation.Situation(site, Feeding(site, i), None).ExemptHeatKw(n) == 0.0
  {
    if n > 0 {
      FeedingHasNoHeat(site, i, n - 1);
    }
  }

  ghost predicate NeverLifted(site: Site) {
    forall r: Readings, g: Option<Guidance> :: Allocation.Situation(site, r, g).Sound() ==>
      Allocation.Situation(site, r, g).ExemptKw() >= 0.0
  }

  // The exempt draw can never lift the budget exactly when no device of the site is exempt, as under the law for DE.
  lemma NeverLiftedIfNothingExempt(site: Site)
    requires site.Valid()
    ensures NeverLifted(site) <==> NothingExempt(site)
    ensures site.policy.consumption == De14a ==> NothingExempt(site)
  {
    if NothingExempt(site) {
      forall r: Readings, g: Option<Guidance> | Allocation.Situation(site, r, g).Sound()
        ensures Allocation.Situation(site, r, g).ExemptKw() >= 0.0
      {
        NoExemptHeat(Allocation.Situation(site, r, g), |site.heatPumps|);
        NoExemptCars(Allocation.Situation(site, r, g), |site.chargers|);
      }
    } else if i :| 0 <= i < |site.heatPumps| && site.ExemptHeatPump(i) {
      AskingDraws(site, i, |site.heatPumps|);
      AskingHasNoCars(site, i, |site.chargers|);
      assert Allocation.Situation(site, Asking(site, i), None).Sound();
    } else {
      var i :| 0 <= i < |site.chargers| && site.ExemptCharger(i);
      FeedingDraws(site, i, |site.chargers|);
      FeedingHasNoHeat(site, i, |site.heatPumps|);
      assert Allocation.Situation(site, Feeding(site, i), None).Sound();
    }
  }

  // ---------------------------------------------------------------- every run

  // The state before cycle k.
  function StateAt(start: State, cycles: seq<Cycle>, k: nat): State
    requires k <= |cycles|
  {
    if k == 0 then start else cycles[k - 1].after
  }

  ghost predicate LegalAt(site: Site, start: State, cycles: seq<Cycle>, k: nat)
    requires k < |cycles|
  {
    Legal(site, StateAt(start, cycles, k), cycles[k])
  }

  // Each cycle starts from the state the one before left.
  ghost predicate Trace(site: Site, start: State, cycles: seq<Cycle>) {
    forall k: nat :: k < |cycles| ==> LegalAt(site, start, cycles, k)
  }

  ghost predicate DimsAt(site: Site, start: State, cycles: seq<Cycle>, k: nat)
    requires Trace(site, start, cycles) && k < |cycles|
  {
    assert LegalAt(site, start, cycles, k);
    DecisionOf(site, StateAt(start, cycles, k), cycles[k]).dim
  }

  // What the exempt devices draw in cycle k.
  ghost function ExemptAt(site: Site, start: State, cycles: seq<Cycle>, k: nat): real
    requires Trace(site, start, cycles) && k < |cycles|
  {
    assert LegalAt(site, start, cycles, k);
    Allocation.Situation(site, cycles[k].r, cycles[k].g).ExemptKw()
  }

  // What is decided in cycle k.
  ghost function DecisionAt(site: Site, start: State, cycles: seq<Cycle>, k: nat): Decision
    requires Trace(site, start, cycles) && k < |cycles|
  {
    assert LegalAt(site, start, cycles, k);
    DecisionOf(site, StateAt(start, cycles, k), cycles[k])
  }

  // What sharing leaves over in cycle k.
  ghost function UnusedAt(site: Site, start: State, cycles: seq<Cycle>, k: nat): real
    requires Trace(site, start, cycles) && k < |cycles|
  {
    assert LegalAt(site, start, cycles, k);
    var c := cycles[k];
    UnusedKw(site, c.g, StateAt(start, cycles, k), c.clock, c.r, DecisionAt(site, start, cycles, k))
  }

  // In every dimmed cycle of every run, with any readings and any guidance, the loads get at most the floor, the PV
  // surplus and the battery's discharge exactly when what is held back, the exempt draw and what sharing leaves over are
  // together not negative, and neither is the promise with the exempt draw and what is left over. All of it follows from
  // what comes in and what is remembered. That is so
  // without negative failsafe currents in every cycle where the exempt draw is not negative, and always where nothing is
  // exempt (as under the law for DE).
  lemma FloorIsKeptInEveryRun(site: Site, start: State, cycles: seq<Cycle>, k: nat)
    requires Trace(site, start, cycles) && k < |cycles| && DimsAt(site, start, cycles, k)
    ensures var c := cycles[k]; |c.sp.chargerA| == |site.chargers| && |c.sp.heatPumpKw| == |site.heatPumps|
    ensures var c, d, exempt := cycles[k], DecisionAt(site, start, cycles, k), ExemptAt(site, start, cycles, k);
      var unused := UnusedAt(site, start, cycles, k);
      && PromisedKw(d) == FloorFor(site, c.cmd) + Measure(site, c.r).SurplusKw().UnwrapOr(0.0)
                          + Sum(Batteries.Discharging(c.sp.batteryKw))
      && (GrantedKw(site, c.sp) <= PromisedKw(d)
          <==> HeldBackKw(site, d) + exempt + unused >= 0.0 && PromisedKw(d) + exempt + unused >= 0.0)
      && (NoNegativeFailsafe(site) && (NothingExempt(site) || exempt >= 0.0) ==>
            GrantedKw(site, c.sp) <= PromisedKw(d))
  {
    var st, c := StateAt(start, cycles, k), cycles[k];
    assert LegalAt(site, start, cycles, k);
    var d := DecisionAt(site, start, cycles, k);
    DimmedDecision(site, c.g, st, c.clock, c.cmd, c.r);
    GrantsAreAsPromisedExactly(site, c.g, st, c.clock, c.cmd, c.r, d, c.sp, c.amps, c.spare);
    if NoNegativeFailsafe(site) && (NothingExempt(site) || ExemptAt(site, start, cycles, k) >= 0.0) {
      ReserveIsSafe(site);
      assert Measure(site, c.r).reserveKw >= 0.0;
      NeverLiftedIfNothingExempt(site);
      FloorIsKept(site, c.g, st, c.clock, c.cmd, c.r, d, c.sp, c.amps, c.spare);
    }
  }

  // In every dimmed cycle of every run, grants and charging together keep to the promise exactly under the condition for
  // one cycle; without exempt devices and negative failsafe currents, exactly when the batteries charge no more than the
  // promise and what sharing leaves over.
  lemma TotalInEveryRun(site: Site, start: State, cycles: seq<Cycle>, k: nat)
    requires Trace(site, start, cycles) && k < |cycles| && DimsAt(site, start, cycles, k)
    ensures var c := cycles[k]; |c.sp.chargerA| == |site.chargers| && |c.sp.heatPumpKw| == |site.heatPumps|
    ensures var c, d, exempt := cycles[k], DecisionAt(site, start, cycles, k), ExemptAt(site, start, cycles, k);
      var charge, unused := Sum(Batteries.Charging(c.sp.batteryKw)), UnusedAt(site, start, cycles, k);
      var left := PromisedKw(d) + unused;
      && (GrantedKw(site, c.sp) + charge <= PromisedKw(d)
          <==> HeldBackKw(site, d) - charge + exempt + unused >= 0.0 && charge <= left + exempt && charge <= left)
      && (NoNegativeFailsafe(site) && NothingExempt(site) ==>
            (GrantedKw(site, c.sp) + charge <= PromisedKw(d) <==> charge <= left))
  {
    var st, c := StateAt(start, cycles, k), cycles[k];
    assert LegalAt(site, start, cycles, k);
    var d := DecisionAt(site, start, cycles, k);
    DimmedDecision(site, c.g, st, c.clock, c.cmd, c.r);
    TotalIsAsPromisedExactly(site, c.g, st, c.clock, c.cmd, c.r, d, c.sp, c.amps, c.spare);
    if NoNegativeFailsafe(site) && NothingExempt(site) {
      ReserveIsSafe(site);
      assert Measure(site, c.r).reserveKw >= 0.0;
      NeverLiftedIfNothingExempt(site);
    }
  }

  lemma LimitHoldsNext(site: Site, start: State, cycles: seq<Cycle>, k: nat)
    requires Trace(site, start, cycles) && k < |cycles| && !cycles[k].cmd.emergency
    requires Accounts.WithinLimit(site.policy.consumption, StateAt(start, cycles, k).books.totals)
    ensures Accounts.WithinLimit(site.policy.consumption, StateAt(start, cycles, k + 1).books.totals)
  {
    assert LegalAt(site, start, cycles, k);
    var st, c := StateAt(start, cycles, k), cycles[k];
    var d := DecisionOf(site, st, c);
    Accounts.AdvanceKeepsTheLimit(site.policy, st.books, c.clock, c.cmd, d.m.pvKw,
                                  CurtailedKw(c.r, d, PvPct(site, st, d, c.clock.t)));
  }

  // Whatever the clock does, no run without emergencies takes the counter of the day past what the contract allows, but
  // for one gap of 10 s.
  lemma {:induction false} DailyLimitHoldsInEveryRun(site: Site, start: State, cycles: seq<Cycle>, n: nat)
    requires Trace(site, start, cycles) && n <= |cycles|
    requires Accounts.WithinLimit(site.policy.consumption, start.books.totals)
    requires forall k :: 0 <= k < |cycles| ==> !cycles[k].cmd.emergency
    ensures Accounts.WithinLimit(site.policy.consumption, StateAt(start, cycles, n).books.totals)
  {
    if n > 0 {
      DailyLimitHoldsInEveryRun(site, start, cycles, n - 1);
      LimitHoldsNext(site, start, cycles, n - 1);
    }
  }
}
