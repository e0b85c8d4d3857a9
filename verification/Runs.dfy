// Properties of whole runs of the controller.
module Runs {
  import opened Basics
  import opened Sites
  import opened Control
  import opened Promise
  import Accounts
  import Batteries
  import Budgets
  import PvLimits
  import Random
  import Sums

  ghost predicate ClockIsMonotone(cycles: seq<Cycle>) {
    forall k, l :: 0 <= k < l < |cycles| ==> cycles[k].clock.t <= cycles[l].clock.t
  }

  // ---------------------------------------------------------------- the surplus that counts

  function MeasuredBy(site: Site, cycles: seq<Cycle>): seq<Budgets.Measured> {
    seq(|cycles|, k requires 0 <= k < |cycles| =>
      Budgets.Measured(cycles[k].clock.t, Measure(site, cycles[k].r).SurplusKw()))
  }

  lemma SeenNext(site: Site, start: State, cycles: seq<Cycle>, k: nat)
    requires Trace(site, start, cycles) && k < |cycles|
    ensures var m := MeasuredBy(site, cycles)[k];
      StateAt(start, cycles, k + 1).seen
      == Budgets.SeenNext(StateAt(start, cycles, k).seen, m.t, m.kw, site.surplusHoldS)
  {
    assert LegalAt(site, start, cycles, k);
  }

  lemma {:induction false} SeenInRun(site: Site, start: State, cycles: seq<Cycle>, n: nat)
    requires Trace(site, start, cycles) && start.seen == [] && n <= |cycles|
    ensures StateAt(start, cycles, n).seen == Budgets.After(MeasuredBy(site, cycles)[..n], site.surplusHoldS)
  {
    if n > 0 {
      SeenInRun(site, start, cycles, n - 1);
      SeenNext(site, start, cycles, n - 1);
      assert MeasuredBy(site, cycles)[..n][..n - 1] == MeasuredBy(site, cycles)[..n - 1];
    }
  }

  // The surplus the loads of cycle k may count on.
  ghost function HeldAt(site: Site, start: State, cycles: seq<Cycle>, k: nat): Option<real>
    requires Trace(site, start, cycles) && k < |cycles|
  {
    assert LegalAt(site, start, cycles, k);
    DecisionOf(site, StateAt(start, cycles, k), cycles[k]).heldKw
  }

  lemma HeldIs(site: Site, start: State, cycles: seq<Cycle>, k: nat)
    requires Trace(site, start, cycles) && k < |cycles|
    ensures var m := MeasuredBy(site, cycles)[k];
      HeldAt(site, start, cycles, k)
      == Budgets.Held(StateAt(start, cycles, k).seen, m.t, m.kw, site.surplusHoldS)
  {
    assert LegalAt(site, start, cycles, k);
  }

  lemma MeasuredTo(site: Site, cycles: seq<Cycle>, n: nat)
    requires n < |cycles| && ClockIsMonotone(cycles)
    ensures var all, run := MeasuredBy(site, cycles), MeasuredBy(site, cycles)[..n + 1];
      && Budgets.Monotone(run) && run[..|run| - 1] == all[..n] && run[|run| - 1] == all[n]
      && all[n] == Budgets.Measured(cycles[n].clock.t, Measure(site, cycles[n].r).SurplusKw())
  {
    assert MeasuredBy(site, cycles)[..n + 1][..n] == MeasuredBy(site, cycles)[..n];
  }

  // In every cycle of every run the surplus the loads may count on is the least that was measured in the last
  // surplus_hold_s, and none when the surplus cannot be measured now.
  lemma HeldSurplusInEveryRun(site: Site, start: State, cycles: seq<Cycle>, n: nat)
    requires Trace(site, start, cycles) && start.seen == [] && n < |cycles|
    requires ClockIsMonotone(cycles) && site.surplusHoldS >= 0.0
    ensures Budgets.LeastMeasured(MeasuredBy(site, cycles)[..n + 1], site.surplusHoldS, HeldAt(site, start, cycles, n))
  {
    SeenInRun(site, start, cycles, n);
    HeldIs(site, start, cycles, n);
    MeasuredTo(site, cycles, n);
    Budgets.HeldIsTheLeastOfTheWindow(MeasuredBy(site, cycles)[..n + 1], site.surplusHoldS);
  }

  // ---------------------------------------------------------------- the gradual return

  ghost function ModeAt(site: Site, start: State, cycles: seq<Cycle>, k: nat): Budgets.Mode
    requires Trace(site, start, cycles) && k < |cycles|
  {
    assert LegalAt(site, start, cycles, k);
    DecisionOf(site, StateAt(start, cycles, k), cycles[k]).outcome.mode
  }

  lemma DimIsRemembered(site: Site, start: State, cycles: seq<Cycle>, k: nat)
    requires Trace(site, start, cycles) && k < |cycles|
    ensures StateAt(start, cycles, k + 1).budget.wasDimmed == DimsAt(site, start, cycles, k)
    ensures DimsAt(site, start, cycles, k) <==> ModeAt(site, start, cycles, k) == Budgets.Dimmed
  {
    assert LegalAt(site, start, cycles, k);
  }

  lemma AfterDimming(site: Site, start: State, cycles: seq<Cycle>, k: nat)
    requires Trace(site, start, cycles) && k < |cycles| && site.releaseRampS > 0.0
    requires StateAt(start, cycles, k).budget.wasDimmed
    ensures ModeAt(site, start, cycles, k) != Budgets.Normal
  {
    assert LegalAt(site, start, cycles, k);
    var st := StateAt(start, cycles, k);
    var d := DecisionOf(site, st, cycles[k]);
    if !d.dim {
      Budgets.DimmedGoesStraightToNormalOnlyWithoutRamp(
        site, st.budget, cycles[k].clock.t, d.floorKw, d.heldKw, Random.Unit(Drawn(st, false)));
    }
  }

  // With a ramp configured no run goes from a dimmed cycle straight to a normal one.
  lemma NeverStraightToNormal(site: Site, start: State, cycles: seq<Cycle>, k: nat)
    requires Trace(site, start, cycles) && k + 1 < |cycles| && site.releaseRampS > 0.0
    requires ModeAt(site, start, cycles, k) == Budgets.Dimmed
    ensures ModeAt(site, start, cycles, k + 1) != Budgets.Normal
  {
    DimIsRemembered(site, start, cycles, k);
    AfterDimming(site, start, cycles, k + 1);
  }

  ghost function BudgetAt(site: Site, start: State, cycles: seq<Cycle>, k: nat): Option<real>
    requires Trace(site, start, cycles) && k < |cycles|
  {
    assert LegalAt(site, start, cycles, k);
    DecisionOf(site, StateAt(start, cycles, k), cycles[k]).outcome.budgetKw
  }

  lemma BudgetIsRemembered(site: Site, start: State, cycles: seq<Cycle>, k: nat)
    requires Trace(site, start, cycles) && k < |cycles|
    ensures var m := StateAt(start, cycles, k + 1).budget;
      && m.lastKw == BudgetAt(site, start, cycles, k) && m.wasDimmed == DimsAt(site, start, cycles, k)
      && (m.wasDimmed ==> m.lastKw.Some?)
  {
    assert LegalAt(site, start, cycles, k);
  }

  // What the generator draws if cycle k needs a draw.
  ghost function UnitAt(start: State, cycles: seq<Cycle>, k: nat): real
    requires k < |cycles|
  {
    Random.Unit(Drawn(StateAt(start, cycles, k), false))
  }

  lemma UndimmedNext(site: Site, start: State, cycles: seq<Cycle>, k: nat)
    requires Trace(site, start, cycles) && k < |cycles| && !DimsAt(site, start, cycles, k)
    ensures site.Valid() && Budgets.Consistent(StateAt(start, cycles, k).budget)
    ensures StateAt(start, cycles, k + 1).budget
            == Budgets.Step(site, StateAt(start, cycles, k).budget, cycles[k].clock.t, false, 0.0, None,
                            UnitAt(start, cycles, k)).m
  {
    assert LegalAt(site, start, cycles, k);
    var st := StateAt(start, cycles, k);
    var d := DecisionOf(site, st, cycles[k]);
    Budgets.UndimmedIgnoresFloor(site, st.budget, cycles[k].clock.t, d.floorKw, d.heldKw, UnitAt(start, cycles, k));
  }

  // The release that begins with the first cycle after a dimming.
  ghost function ReleaseAt(site: Site, start: State, cycles: seq<Cycle>, k: nat): Budgets.Release
    requires k < |cycles|
  {
    Budgets.Release(cycles[k].clock.t + Budgets.WaitS(site, UnitAt(start, cycles, k)),
                    StateAt(start, cycles, k).budget.lastKw.UnwrapOr(0.0))
  }

  lemma {:induction false} ReturningInRun(site: Site, start: State, cycles: seq<Cycle>, k: nat, n: nat)
    requires Trace(site, start, cycles) && ClockIsMonotone(cycles) && k <= n < |cycles|
    requires StateAt(start, cycles, k).budget.wasDimmed
    requires forall j :: k <= j <= n ==> !DimsAt(site, start, cycles, j)
    ensures site.Valid()
    ensures Budgets.Returning(site, StateAt(start, cycles, n + 1).budget, ReleaseAt(site, start, cycles, k),
                              cycles[n].clock.t)
    decreases n
  {
    UndimmedNext(site, start, cycles, n);
    if n == k {
      Budgets.ReturningBegins(site, StateAt(start, cycles, k).budget, cycles[k].clock.t, UnitAt(start, cycles, k));
    } else {
      ReturningInRun(site, start, cycles, k, n - 1);
      Budgets.ReturningGoesOn(site, StateAt(start, cycles, n).budget, ReleaseAt(site, start, cycles, k),
                              cycles[n - 1].clock.t, cycles[n].clock.t, UnitAt(start, cycles, n));
    }
  }

  lemma ReleaseStarts(site: Site, start: State, cycles: seq<Cycle>, k: nat) returns (wait: real, last: real)
    requires Trace(site, start, cycles) && k + 1 < |cycles| && site.Valid()
    requires StateAt(start, cycles, k + 1).budget.wasDimmed
    ensures 0.0 <= wait <= site.releaseDelayMaxS && BudgetAt(site, start, cycles, k) == Some(last)
    ensures ReleaseAt(site, start, cycles, k + 1) == Budgets.Release(cycles[k + 1].clock.t + wait, last)
  {
    BudgetIsRemembered(site, start, cycles, k);
    wait, last := Budgets.WaitS(site, UnitAt(start, cycles, k + 1)), BudgetAt(site, start, cycles, k).value;
    Budgets.WaitIsBounded(site, UnitAt(start, cycles, k + 1));
  }

  // After a dimming that ends with cycle k, every later cycle n before the next dimming has the budget that the last
  // dimmed budget, one wait of at most the configured length, and the time since then give: constant for the wait,
  // then linear towards the rated load, then unlimited.
  lemma ReleaseInEveryRun(site: Site, start: State, cycles: seq<Cycle>, k: nat, n: nat) returns (wait: real, last: real)
    requires Trace(site, start, cycles) && ClockIsMonotone(cycles) && k < n < |cycles|
    requires DimsAt(site, start, cycles, k)
    requires forall j :: k < j <= n ==> !DimsAt(site, start, cycles, j)
    ensures site.Valid() && 0.0 <= wait <= site.releaseDelayMaxS && BudgetAt(site, start, cycles, k) == Some(last)
    ensures BudgetAt(site, start, cycles, n)
            == Budgets.Returned(site, Budgets.Release(cycles[k + 1].clock.t + wait, last), cycles[n].clock.t)
  {
    BudgetIsRemembered(site, start, cycles, k);
    BudgetIsRemembered(site, start, cycles, n);
    ReturningInRun(site, start, cycles, k + 1, n);
    wait, last := ReleaseStarts(site, start, cycles, k);
  }

  // ---------------------------------------------------------------- the battery

  // While dimmed or releasing the batteries charge at most the PV that base load and loads would leave over if nothing
  // were curtailed, whatever the plan says.
  lemma ChargesFromSurplusInEveryRun(site: Site, start: State, cycles: seq<Cycle>, k: nat)
    requires Trace(site, start, cycles) && k < |cycles| && ModeAt(site, start, cycles, k) != Budgets.Normal
    ensures var c, m := cycles[k], Measure(site, cycles[k].r);
      var pvRef := if c.r.pvAvailableKw.Some? then c.r.pvAvailableKw else m.pvKw;
      Max(0.0, if m.BaseKw().Some? then pvRef.UnwrapOr(0.0) - m.BaseKw().value - m.loadsKw else 0.0)
      >= ChargedKw(c)
  {
    assert LegalAt(site, start, cycles, k);
    var c := cycles[k];
    var d := DecisionOf(site, StateAt(start, cycles, k), c);
    Batteries.ConstrainedChargesFromSurplus(site, c.r.batteries,
                                            BalanceOf(site, c.g, d.m, c.r, true, d.floorKw, d.feedInPct));
  }

  // They stay within the PV left over that is measured, and so do not charge from the grid, exactly unless a plan is
  // followed that wants more, while the sun would allow more and the batteries have room for more. Without a reading of
  // what the sun would allow they always do.
  lemma ChargesFromMeasuredPvInEveryRun(site: Site, start: State, cycles: seq<Cycle>, k: nat)
    requires Trace(site, start, cycles) && k < |cycles| && ModeAt(site, start, cycles, k) != Budgets.Normal
    ensures var c, d := cycles[k], DecisionAt(site, start, cycles, k);
      var balance := BalanceOf(site, c.g, d.m, c.r, true, d.floorKw, d.feedInPct);
      && (ChargedKw(c) <= balance.LeftKw() <==> !Batteries.ChargesFromGrid(site, c.r.batteries, balance))
      && (c.r.pvAvailableKw.None? ==> ChargedKw(c) <= balance.LeftKw())
  {
    assert LegalAt(site, start, cycles, k);
    var c, d := cycles[k], DecisionAt(site, start, cycles, k);
    Batteries.ChargesFromMeasuredPvExactly(site, c.r.batteries,
                                           BalanceOf(site, c.g, d.m, c.r, true, d.floorKw, d.feedInPct));
  }

  function ChargedKw(c: Cycle): real {
    Sums.Sum(Batteries.Charging(c.sp.batteryKw))
  }

  // ---------------------------------------------------------------- the PV limit

  // The run seen as the ramp sees it.
  ghost function RampAt(site: Site, start: State, cycles: seq<Cycle>, k: nat): PvLimits.Cycle
    requires Trace(site, start, cycles) && k < |cycles|
  {
    assert LegalAt(site, start, cycles, k);
    var st := StateAt(start, cycles, k);
    PvLimits.Cycle(PvLimits.RiseOf(site.pvRampPctPerS, st.lastT, cycles[k].clock.t),
                   TargetPct(site, DecisionOf(site, st, cycles[k])))
  }

  lemma PvNext(site: Site, start: State, cycles: seq<Cycle>, k: nat)
    requires Trace(site, start, cycles) && k < |cycles|
    ensures var step := RampAt(site, start, cycles, k);
      && StateAt(start, cycles, k + 1).pvPct
         == PvLimits.LimitPct(StateAt(start, cycles, k).pvPct, step.targetPct, step.rise)
      && 0.0 <= step.targetPct <= 100.0
  {
    assert LegalAt(site, start, cycles, k);
    var st, c := StateAt(start, cycles, k), cycles[k];
    var d := DecisionOf(site, st, c);
    PvLimits.FeedInIsAPercentage(site, c.cmd, Accounts.Rolled(st.books.totals, c.clock).curtailedKwh);
    PvLimits.TargetIsAPercentage(site, d.feedInPct, d.m.gridKw, d.m.pvKw, d.m.batteryKw, d.ChargeKw(), d.DischargeKw());
  }

  lemma TimeNext(site: Site, start: State, cycles: seq<Cycle>, k: nat)
    requires Trace(site, start, cycles) && k < |cycles| && site.pvRampPctPerS > 0.0
    ensures StateAt(start, cycles, k + 1).lastT == Some(cycles[k].clock.t)
    ensures RampAt(site, start, cycles, k).rise
            == PvLimits.RiseOf(site.pvRampPctPerS, StateAt(start, cycles, k).lastT, cycles[k].clock.t) >= 0.0
  {
    assert LegalAt(site, start, cycles, k);
    PvLimits.RiseIsNotNegative(site.pvRampPctPerS, StateAt(start, cycles, k).lastT, cycles[k].clock.t);
  }

  ghost function RampRun(site: Site, start: State, cycles: seq<Cycle>): seq<PvLimits.Cycle>
    requires Trace(site, start, cycles)
  {
    seq(|cycles|, k requires 0 <= k < |cycles| => RampAt(site, start, cycles, k))
  }

  lemma {:induction false} PvRun(site: Site, start: State, cycles: seq<Cycle>, n: nat)
    requires Trace(site, start, cycles) && n <= |cycles|
    ensures StateAt(start, cycles, n).pvPct == PvLimits.Ramped(start.pvPct, RampRun(site, start, cycles)[..n])
  {
    if n > 0 {
      PvRun(site, start, cycles, n - 1);
      PvNext(site, start, cycles, n - 1);
      RampedNext(start.pvPct, RampRun(site, start, cycles), n);
    }
  }

  lemma RampedNext(startPct: real, run: seq<PvLimits.Cycle>, n: nat)
    requires 0 < n <= |run|
    ensures PvLimits.Ramped(startPct, run[..n])
            == PvLimits.LimitPct(PvLimits.Ramped(startPct, run[..n - 1]), run[n - 1].targetPct, run[n - 1].rise)
  {
    assert run[..n][..n - 1] == run[..n - 1];
  }

  function TimesOf(cycles: seq<Cycle>): seq<real> {
    seq(|cycles|, k requires 0 <= k < |cycles| => cycles[k].clock.t)
  }

  lemma CycleIsTimed(site: Site, start: State, cycles: seq<Cycle>, k: nat)
    requires Trace(site, start, cycles) && k < |cycles| && site.pvRampPctPerS > 0.0
    ensures var step := RampAt(site, start, cycles, k);
      && 0.0 <= step.targetPct <= 100.0
      && (k > 0 ==> PvLimits.RisesFor(step, site.pvRampPctPerS, cycles[k - 1].clock.t, cycles[k].clock.t))
  {
    PvNext(site, start, cycles, k);
    TimeNext(site, start, cycles, k);
    if k > 0 {
      TimeNext(site, start, cycles, k - 1);
    }
  }

  ghost predicate TimedAt(run: seq<PvLimits.Cycle>, rate: real, times: seq<real>, k: nat)
    requires k < |run| == |times|
  {
    && 0.0 <= run[k].targetPct <= 100.0
    && (k > 0 ==> PvLimits.RisesFor(run[k], rate, times[k - 1], times[k]))
  }

  ghost predicate Rising(times: seq<real>) {
    forall k, l :: 0 <= k < l < |times| ==> times[k] <= times[l]
  }

  lemma TimesRise(cycles: seq<Cycle>)
    requires ClockIsMonotone(cycles)
    ensures Rising(TimesOf(cycles))
  {
  }

  lemma RampIsTimedAt(site: Site, start: State, cycles: seq<Cycle>, run: seq<PvLimits.Cycle>, times: seq<real>, k: nat)
    requires Trace(site, start, cycles) && k < |cycles| && site.pvRampPctPerS > 0.0
    requires run == RampRun(site, start, cycles) && times == TimesOf(cycles)
    ensures TimedAt(run, site.pvRampPctPerS, times, k)
  {
    CycleIsTimed(site, start, cycles, k);
  }

  lemma TimedOf(run: seq<PvLimits.Cycle>, rate: real, times: seq<real>)
    requires |run| == |times| && Rising(times) && forall k: nat :: k < |run| ==> TimedAt(run, rate, times, k)
    ensures PvLimits.Timed(run, rate, times)
  {
    forall k: nat | k < |run|
      ensures 0.0 <= run[k].targetPct <= 100.0
      ensures k > 0 ==> PvLimits.RisesFor(run[k], rate, times[k - 1], times[k])
    {
      assert TimedAt(run, rate, times, k);
    }
  }

  lemma RampIsTimed(site: Site, start: State, cycles: seq<Cycle>)
    requires Trace(site, start, cycles) && ClockIsMonotone(cycles) && site.pvRampPctPerS > 0.0
    ensures PvLimits.Timed(RampRun(site, start, cycles), site.pvRampPctPerS, TimesOf(cycles))
  {
    var run, times := RampRun(site, start, cycles), TimesOf(cycles);
    forall k: nat | k < |run|
      ensures TimedAt(run, site.pvRampPctPerS, times, k)
    {
      RampIsTimedAt(site, start, cycles, run, times, k);
    }
    TimesRise(cycles);
    TimedOf(run, site.pvRampPctPerS, times);
  }

  // The limits of the run are those of a ramp at its times.
  lemma RampOf(site: Site, start: State, cycles: seq<Cycle>, m: nat) returns (run: seq<PvLimits.Cycle>)
    requires Trace(site, start, cycles) && ClockIsMonotone(cycles) && site.pvRampPctPerS > 0.0
    requires 0 < m <= |cycles|
    ensures PvLimits.Timed(run, site.pvRampPctPerS, TimesOf(cycles)) && run[0].rise >= 0.0
    ensures StateAt(start, cycles, m).pvPct == PvLimits.Ramped(start.pvPct, run[..m])
    ensures StateAt(start, cycles, |cycles|).pvPct == PvLimits.Ramped(start.pvPct, run)
  {
    run := RampRun(site, start, cycles);
    RampIsTimed(site, start, cycles);
    PvRun(site, start, cycles, m);
    PvRun(site, start, cycles, |cycles|);
    TimeNext(site, start, cycles, 0);
    assert run[..|cycles|] == run;
  }

  // In every run with a monotone clock the PV limit rises between any two cycles by at most the ramp rate times the
  // time between them.
  lemma PvRisesGentlyInEveryRun(site: Site, start: State, cycles: seq<Cycle>, m: nat)
    requires Trace(site, start, cycles) && ClockIsMonotone(cycles) && site.pvRampPctPerS > 0.0
    requires 0 < m <= |cycles|
    ensures StateAt(start, cycles, |cycles|).pvPct
            <= StateAt(start, cycles, m).pvPct
               + PvLimits.Allowance(site.pvRampPctPerS, cycles[|cycles| - 1].clock.t)
               - PvLimits.Allowance(site.pvRampPctPerS, cycles[m - 1].clock.t)
  {
    var run := RampOf(site, start, cycles, m);
    PvLimits.LimitRisesGently(start.pvPct, run, site.pvRampPctPerS, TimesOf(cycles), m);
  }

  // ---------------------------------------------------------------- inverters that ignore their limit

  // In a run with n inverters, inverter i is over the limit it was sent with the cycle before.
  ghost function OverAt(site: Site, start: State, cycles: seq<Cycle>, i: nat, k: nat): bool
    requires Trace(site, start, cycles) && k < |cycles| && i < |cycles[k].r.inverters|
  {
    assert LegalAt(site, start, cycles, k);
    var inv := cycles[k].r.inverters;
    PvLimits.Over(site, inv[i], PvLimits.Matched(StateAt(start, cycles, k).followers, |inv|).sentPct[i])
  }

  // It is reported, and the others are limited further.
  ghost predicate IgnoresAt(site: Site, start: State, cycles: seq<Cycle>, i: nat, k: nat)
    requires Trace(site, start, cycles) && k < |cycles| && i < |cycles[k].r.inverters|
  {
    assert LegalAt(site, start, cycles, k);
    var inv, t := cycles[k].r.inverters, cycles[k].clock.t;
    var m := PvLimits.Matched(StateAt(start, cycles, k).followers, |inv|);
    var overs := PvLimits.Overs(site, inv, m);
    PvLimits.Ignoring(site, overs, PvLimits.Sinces(m, overs, t), t)[i]
  }

  ghost predicate Always(cycles: seq<Cycle>, inverters: nat) {
    forall k :: 0 <= k < |cycles| ==> |cycles[k].r.inverters| == inverters
  }

  // Its cycles as the check for ignored limits sees them.
  ghost function OverRun(site: Site, start: State, cycles: seq<Cycle>, inverters: nat, i: nat, n: nat)
    : seq<(real, bool)>
    requires Trace(site, start, cycles) && Always(cycles, inverters) && i < inverters && n <= |cycles|
  {
    if n == 0 then []
    else
      OverRun(site, start, cycles, inverters, i, n - 1)
      + [(cycles[n - 1].clock.t, OverAt(site, start, cycles, i, n - 1))]
  }

  // What is remembered of it, before cycle k.
  ghost function SinceAt(start: State, cycles: seq<Cycle>, inverters: nat, i: nat, k: nat): Option<real>
    requires i < inverters && k <= |cycles|
    requires var f := StateAt(start, cycles, k).followers; |f.sentPct| == |f.overSince|
  {
    PvLimits.Matched(StateAt(start, cycles, k).followers, inverters).overSince[i]
  }

  lemma SinceNext(site: Site, start: State, cycles: seq<Cycle>, inverters: nat, i: nat, k: nat)
    requires Trace(site, start, cycles) && Always(cycles, inverters) && i < inverters && k < |cycles|
    ensures var f := StateAt(start, cycles, k).followers; |f.sentPct| == |f.overSince|
    ensures var f := StateAt(start, cycles, k + 1).followers; |f.sentPct| == |f.overSince| == inverters
    ensures var over, t := OverAt(site, start, cycles, i, k), cycles[k].clock.t;
      var since := PvLimits.SinceNext(SinceAt(start, cycles, inverters, i, k), over, t);
      && SinceAt(start, cycles, inverters, i, k + 1) == since
      && (IgnoresAt(site, start, cycles, i, k) <==> PvLimits.Ignores(site, over, since, t))
  {
    assert LegalAt(site, start, cycles, k);
  }

  lemma {:induction false} SinceInRun(site: Site, start: State, cycles: seq<Cycle>, inverters: nat, i: nat, n: nat)
    requires Trace(site, start, cycles) && Always(cycles, inverters) && i < inverters && n <= |cycles|
    requires start.followers == PvLimits.Followers([], [])
    ensures var f := StateAt(start, cycles, n).followers; |f.sentPct| == |f.overSince|
    ensures SinceAt(start, cycles, inverters, i, n)
            == PvLimits.SinceAfter(OverRun(site, start, cycles, inverters, i, n))
  {
    if n > 0 {
      SinceInRun(site, start, cycles, inverters, i, n - 1);
      SinceNext(site, start, cycles, inverters, i, n - 1);
      var run := OverRun(site, start, cycles, inverters, i, n);
      assert run[..|run| - 1] == OverRun(site, start, cycles, inverters, i, n - 1);
    }
  }

  // In every run, as long as the number of inverters does not change, an inverter is reported in a cycle exactly when it
  // has been over the limit it was sent, without a break, for the timeout.
  lemma IgnoredInEveryRun(site: Site, start: State, cycles: seq<Cycle>, inverters: nat, i: nat, k: nat)
    requires Trace(site, start, cycles) && Always(cycles, inverters) && i < inverters && k < |cycles|
    requires start.followers == PvLimits.Followers([], [])
    ensures IgnoresAt(site, start, cycles, i, k)
            <==> site.followTimeoutS > 0.0
                 && PvLimits.OverForLong(OverRun(site, start, cycles, inverters, i, k + 1), site.followTimeoutS)
  {
    SinceInRun(site, start, cycles, inverters, i, k + 1);
    SinceInRun(site, start, cycles, inverters, i, k);
    SinceNext(site, start, cycles, inverters, i, k);
    PvLimits.IgnoredAfterTheTimeout(site, OverRun(site, start, cycles, inverters, i, k + 1));
  }

  // ---------------------------------------------------------------- the daily limit

  // The time since the last cycle, as far as it counts.
  function GapAt(start: State, cycles: seq<Cycle>, k: nat): real
    requires k < |cycles|
  {
    Gap(if k == 0 then start.books.lastT else Some(cycles[k - 1].clock.t), cycles[k].clock.t)
  }

  // A cycle as the counter of the day sees it.
  ghost function SlotAt(site: Site, start: State, cycles: seq<Cycle>, k: nat): Accounts.Slot
    requires Trace(site, start, cycles) && k < |cycles|
  {
    Accounts.Slot(cycles[k].clock.day, GapAt(start, cycles, k), DimsAt(site, start, cycles, k))
  }

  ghost function SlotsOf(site: Site, start: State, cycles: seq<Cycle>): seq<Accounts.Slot>
    requires Trace(site, start, cycles)
  {
    seq(|cycles|, k requires 0 <= k < |cycles| => SlotAt(site, start, cycles, k))
  }

  function CountersOf(start: State, cycles: seq<Cycle>): seq<Accounts.Counter> {
    seq(|cycles| + 1, k requires 0 <= k <= |cycles| => Accounts.CounterOf(StateAt(start, cycles, k).books.totals))
  }

  // One cycle on the counter.
  lemma CycleIsCounted(site: Site, st: State, c: Cycle)
    requires Legal(site, st, c)
    ensures c.after.books.lastT == Some(c.clock.t)
    ensures Accounts.CounterOf(c.after.books.totals)
            == Accounts.Counted(Accounts.CounterOf(st.books.totals),
                                Accounts.Slot(c.clock.day, Gap(st.books.lastT, c.clock.t), DecisionOf(site, st, c).dim))
  {
  }

  lemma LastTimeIs(site: Site, start: State, cycles: seq<Cycle>, k: nat)
    requires Trace(site, start, cycles) && k <= |cycles|
    ensures StateAt(start, cycles, k).books.lastT == if k == 0 then start.books.lastT else Some(cycles[k - 1].clock.t)
  {
    if k > 0 {
      assert LegalAt(site, start, cycles, k - 1);
      CycleIsCounted(site, StateAt(start, cycles, k - 1), cycles[k - 1]);
    }
  }

  lemma CounterNext(site: Site, start: State, cycles: seq<Cycle>, k: nat)
    requires Trace(site, start, cycles) && k < |cycles|
    ensures Accounts.CounterOf(StateAt(start, cycles, k + 1).books.totals)
            == Accounts.Counted(Accounts.CounterOf(StateAt(start, cycles, k).books.totals), SlotAt(site, start, cycles, k))
  {
    LastTimeIs(site, start, cycles, k);
    assert LegalAt(site, start, cycles, k);
    CycleIsCounted(site, StateAt(start, cycles, k), cycles[k]);
  }

  lemma CountersFollow(site: Site, start: State, cycles: seq<Cycle>)
    requires Trace(site, start, cycles)
    ensures Accounts.Follow(CountersOf(start, cycles), SlotsOf(site, start, cycles))
  {
    forall k: nat | k < |cycles|
      ensures CountersOf(start, cycles)[k + 1]
              == Accounts.Counted(CountersOf(start, cycles)[k], SlotsOf(site, start, cycles)[k])
    {
      CounterNext(site, start, cycles, k);
    }
  }

  // In every run without emergencies in which no day comes back after another, no day is dimmed longer than the contract
  // allows, but for one gap of 10 s: what was restored for the day and the dimmed gaps of its cycles together.
  lemma NoDayIsDimmedLonger(site: Site, start: State, cycles: seq<Cycle>, day: int)
    requires Trace(site, start, cycles)
    requires Accounts.NoneReturns(Accounts.Days(start.books.totals.day, SlotsOf(site, start, cycles)))
    requires Accounts.WithinLimit(site.policy.consumption, start.books.totals)
    requires forall k :: 0 <= k < |cycles| ==> !cycles[k].cmd.emergency
    ensures var rule := site.policy.consumption;
      rule.Contract? && rule.maxMinutesPerDay > 0.0 ==>
        Accounts.RestoredS(start.books.totals, day) + Accounts.DimmedOnS(SlotsOf(site, start, cycles), day)
        <= rule.maxMinutesPerDay * 60.0 + MAX_STEP_S
  {
    var slots, counters := SlotsOf(site, start, cycles), CountersOf(start, cycles);
    var m := Accounts.EndOfDay(counters[0], slots, day);
    CountersFollow(site, start, cycles);
    Accounts.CountersAre(counters, slots, m);
    DailyLimitHoldsInEveryRun(site, start, cycles, m);
  }
}
