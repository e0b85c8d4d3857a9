// The real-time controller (crates/control/src/controller.rs:342-737): one cycle from readings and commands to
// setpoints, and the promise it keeps while dimmed.
module Control {
  import opened Basics
  import opened Sums
  import opened Sites
  import Accounts
  import Allocation
  import Batteries
  import Budgets
  import Compliance
  import PvLimits
  import Random
  import WaterFill

  // ---------------------------------------------------------------- what is measured

  function GridKw(site: Site, r: Readings): Option<real> {
    match r.gridKw
    case None => None
    case Some(g) => if Max(g, -g) > 1.5 * site.connectionKw then None else r.gridKw
  }

  function PvKw(site: Site, r: Readings): Option<real> {
    match r.pvKw
    case None => None
    case Some(p) => if p < -1.0 || p > 1.25 * site.pvInstalledKw then None else Some(Max(p, 0.0))
  }

  // The loads that answer draw what they say.
  function ChargersKw(r: seq<ChargerReading>, n: nat): real
    requires n <= |r|
  {
    if n == 0 then 0.0 else ChargersKw(r, n - 1) + (if r[n - 1].online then r[n - 1].powerKw else 0.0)
  }

  function HeatKw(r: seq<HeatPumpReading>, n: nat): real
    requires n <= |r|
  {
    if n == 0 then 0.0 else HeatKw(r, n - 1) + (if r[n - 1].online then r[n - 1].powerKw else 0.0)
  }

  function BatteriesKw(r: seq<BatteryReading>, n: nat): real
    requires n <= |r|
  {
    if n == 0 then 0.0 else BatteriesKw(r, n - 1) + (if r[n - 1].online then r[n - 1].powerKw else 0.0)
  }

  // The ones that do not answer are taken to draw what they would on their own.
  function ChargerReserveKw(site: Site, r: seq<ChargerReading>, n: nat): real
    requires n <= |r| && n <= |site.chargers|
  {
    if n == 0 then 0.0
    else
      ChargerReserveKw(site, r, n - 1)
      + (if !r[n - 1].online && !site.ExemptCharger(n - 1) then KwOf(site.chargers[n - 1].failsafeA) else 0.0)
  }

  function HeatReserveKw(site: Site, r: seq<HeatPumpReading>, n: nat): real
    requires n <= |r| && n <= |site.heatPumps|
  {
    if n == 0 then 0.0
    else
      HeatReserveKw(site, r, n - 1)
      + (if !r[n - 1].online && !site.ExemptHeatPump(n - 1) then site.heatPumps[n - 1].ratedKw else 0.0)
  }

  function Least(a: nat, b: nat): nat {
    if a <= b then a else b
  }

  datatype Measures = Measures(
    gridKw: Option<real>, pvKw: Option<real>, loadsKw: real, reserveKw: real, batteryKw: real)
  {
    // What the meter sees that is neither PV nor a controllable device.
    function BaseKw(): Option<real> {
      if gridKw.Some? && pvKw.Some? then Some(gridKw.value + pvKw.value - loadsKw - batteryKw) else None
    }

    function SurplusKw(): Option<real> {
      if BaseKw().Some? then Some(Max(pvKw.value - BaseKw().value, 0.0)) else None
    }
  }

  function Measure(site: Site, r: Readings): Measures {
    var chargers, heatPumps := Least(|site.chargers|, |r.chargers|), Least(|site.heatPumps|, |r.heatPumps|);
    Measures(
      GridKw(site, r), PvKw(site, r), ChargersKw(r.chargers, chargers) + HeatKw(r.heatPumps, heatPumps),
      ChargerReserveKw(site, r.chargers, chargers) + HeatReserveKw(site, r.heatPumps, heatPumps),
      BatteriesKw(r.batteries, Least(|site.batteries|, |r.batteries|)))
  }

  method TakeMeasures(site: Site, r: Readings) returns (m: Measures)
    ensures m == Measure(site, r)
  {
    var reserve, loads, heat, heatReserve, battery := 0.0, 0.0, 0.0, 0.0, 0.0;
    for i := 0 to Least(|site.chargers|, |r.chargers|)
      invariant loads == ChargersKw(r.chargers, i) && reserve == ChargerReserveKw(site, r.chargers, i)
    {
      if r.chargers[i].online {
        loads := loads + r.chargers[i].powerKw;
      } else if !site.ExemptCharger(i) {
        reserve := reserve + KwOf(site.chargers[i].failsafeA);
      }
    }
    for i := 0 to Least(|site.heatPumps|, |r.heatPumps|)
      invariant heat == HeatKw(r.heatPumps, i) && heatReserve == HeatReserveKw(site, r.heatPumps, i)
    {
      if r.heatPumps[i].online {
        heat := heat + r.heatPumps[i].powerKw;
      } else if !site.ExemptHeatPump(i) {
        heatReserve := heatReserve + site.heatPumps[i].ratedKw;
      }
    }
    for i := 0 to Least(|site.batteries|, |r.batteries|)
      invariant battery == BatteriesKw(r.batteries, i)
    {
      if r.batteries[i].online {
        battery := battery + r.batteries[i].powerKw;
      }
    }
    m := Measures(GridKw(site, r), PvKw(site, r), loads + heat, reserve + heatReserve, battery);
  }

  // ---------------------------------------------------------------- one cycle

  datatype State = State(
    books: Accounts.Books, budget: Budgets.Memory, seen: seq<Budgets.Seen>, chargers: Allocation.Memory,
    pvPct: real, lastT: Option<real>, followers: PvLimits.Followers, rng: bv64)
  {
    predicate Valid(site: Site) {
      && Budgets.Consistent(budget) && |chargers.on| == |chargers.switchedAt| == |site.chargers|
      && |followers.sentPct| == |followers.overSince| && 0.0 <= pvPct <= 100.0
    }
  }

  // What a cycle decides before it shares the budget.
  datatype Decision = Decision(
    m: Measures, dim: bool, floorKw: real, heldKw: Option<real>, outcome: Budgets.Outcome, feedInPct: real,
    batteryKw: seq<real>)
  {
    function DischargeKw(): real {
      Sum(Batteries.Discharging(batteryKw))
    }

    function ChargeKw(): real {
      Sum(Batteries.Charging(batteryKw))
    }

    // The loads may use what the battery discharges, but not what it charges or what silent devices may draw.
    function LoadsKw(): Option<real> {
      match outcome.budgetKw
      case None => None
      case Some(b) => Some(b + DischargeKw() - ChargeKw() - m.reserveKw)
    }
  }

  function BalanceOf(site: Site, g: Option<Guidance>, m: Measures, r: Readings, constrained: bool, floorKw: real,
                     feedInPct: real): Batteries.Balance
  {
    Batteries.Balance(
      m.gridKw, m.batteryKw, constrained, floorKw, m.BaseKw(), m.pvKw, m.loadsKw,
      if feedInPct < 100.0 then Some(PvLimits.AllowedExportKw(site, feedInPct)) else None, r.pvAvailableKw,
      site.importTargetKw, if g.Some? then g.value.gridKw else None, g.Some? && g.value.dimExpected)
  }

  function Drawn(st: State, dim: bool): bv64 {
    if st.budget.wasDimmed && !dim then Random.Next(st.rng) else st.rng
  }

  function Decide(site: Site, g: Option<Guidance>, st: State, clock: Accounts.Clock, cmd: Commands, r: Readings)
    : Decision
    requires site.Valid() && st.Valid(site)
  {
    var m := Measure(site, r);
    var floor := FloorFor(site, cmd);
    var held := Budgets.Held(st.seen, clock.t, m.SurplusKw(), site.surplusHoldS);
    var totals := Accounts.Rolled(st.books.totals, clock);
    var dim := Accounts.Dims(site.policy.consumption, cmd, totals);
    var outcome := Budgets.Step(site, st.budget, clock.t, dim, floor, held, Random.Unit(Drawn(st, dim)));
    var feedIn := PvLimits.FeedInPct(site, cmd, totals.curtailedKwh);
    var balance := BalanceOf(site, g, m, r, outcome.mode != Budgets.Normal, floor, feedIn);
    Decision(m, dim, floor, held, outcome, feedIn, Batteries.Setpoints(site, r.batteries, balance))
  }

  function TargetPct(site: Site, d: Decision): real
    requires site.pvInstalledKw > 0.0
  {
    PvLimits.TargetPct(site, d.feedInPct, d.m.gridKw, d.m.pvKw, d.m.batteryKw, d.ChargeKw(), d.DischargeKw())
  }

  function PvPct(site: Site, st: State, d: Decision, t: real): real
    requires site.pvInstalledKw > 0.0
  {
    PvLimits.LimitPct(st.pvPct, TargetPct(site, d),
                      PvLimits.RiseOf(site.pvRampPctPerS, st.lastT, t))
  }

  function CurtailedKw(r: Readings, d: Decision, pvPct: real): real {
    if r.pvAvailableKw.Some? && d.m.pvKw.Some? && pvPct < 100.0 then
      Max(r.pvAvailableKw.value - d.m.pvKw.value, 0.0)
    else 0.0
  }

  // What a heat pump under the plan is asked to draw.
  function AskedKw(s: Allocation.Situation, limitKw: seq<real>): seq<Option<real>>
    requires |limitKw| == |s.site.heatPumps|
  {
    seq(|limitKw|, i requires 0 <= i < |limitKw| =>
      match s.PlannedHeatKw(i) case None => None case Some(kw) => Some(Max(Min(kw, limitKw[i]), 0.0)))
  }

  // What the controllable devices take from the grid: their draw less the PV surplus and what the batteries give.
  function DrawKw(m: Measures): Option<real> {
    if m.SurplusKw().None? then None
    else Some(Max(m.loadsKw + Max(m.batteryKw, 0.0) - m.SurplusKw().value - Max(-m.batteryKw, 0.0), 0.0))
  }

  // The cycle as the recorder of the compliance reports sees it.
  function ObservationOf(clock: Accounts.Clock, cmd: Commands, d: Decision): Compliance.Observation {
    Compliance.Observation(
      clock.t, d.outcome.mode == Budgets.Dimmed, cmd.emergency, d.floorKw, DrawKw(d.m),
      match d.outcome.budgetKw case None => None case Some(kw) => Some(Max(kw, 0.0)))
  }

  datatype Setpoints = Setpoints(
    pvPct: real, inverterPct: seq<real>, chargerA: seq<real>, heatPumpKw: seq<real>, batteryKw: seq<real>,
    askedKw: seq<Option<real>>)

  // How the budget may be shared; the water-fill is given by its promise.
  ghost predicate Shared(site: Site, g: Option<Guidance>, st: State, clock: Accounts.Clock, r: Readings, d: Decision,
                         sp: Setpoints, amps: WaterFill.Amps, spare: real)
    requires st.Valid(site) && Allocation.Situation(site, r, g).Sound()
  {
    var s := Allocation.Situation(site, r, g);
    && |sp.chargerA| == |site.chargers| && |sp.heatPumpKw| == |site.heatPumps|
    && (match d.LoadsKw()
        case None => sp.chargerA == s.Unlimited() && sp.heatPumpKw == RatedKw(site.heatPumps)
        case Some(kw) => Allocation.Allocated(s, st.chargers, clock.t, kw, sp.chargerA, sp.heatPumpKw, amps, spare))
    && sp.batteryKw == d.batteryKw && sp.askedKw == AskedKw(s, sp.heatPumpKw)
  }

  // What is remembered of the inverters, and the limits they get.
  ghost predicate Followed(site: Site, r: Readings, before: PvLimits.Followers, after: PvLimits.Followers, pct: real,
                           t: real)
    requires |before.sentPct| == |before.overSince|
  {
    var m := PvLimits.Matched(before, |r.inverters|);
    var overs := PvLimits.Overs(site, r.inverters, m);
    var sinces := PvLimits.Sinces(m, overs, t);
    && after.overSince == sinces
    && after.sentPct == PvLimits.Limits(site, r.inverters, PvLimits.Ignoring(site, overs, sinces, t), pct)
  }

  // The state after a cycle with these setpoints.
  ghost predicate Remembered(site: Site, g: Option<Guidance>, st: State, clock: Accounts.Clock, r: Readings, d: Decision,
                             sp: Setpoints, st': State)
    requires site.Valid() && st.Valid(site) && Allocation.Situation(site, r, g).Sound()
    requires |sp.chargerA| == |site.chargers|
  {
    var s, pct := Allocation.Situation(site, r, g), PvPct(site, st, d, clock.t);
    && st'.books == Accounts.Advanced(st.books.(totals := Accounts.Rolled(st.books.totals, clock)), clock, d.dim,
                                      d.m.pvKw, CurtailedKw(r, d, pct))
    && st'.budget == d.outcome.m
    && st'.seen == Budgets.SeenNext(st.seen, clock.t, d.m.SurplusKw(), site.surplusHoldS)
    && st'.chargers == Allocation.Switched(st.chargers, Allocation.Charges(s, sp.chargerA), clock.t, |site.chargers|)
    && sp.pvPct == st'.pvPct == pct && st'.lastT == Some(clock.t) && st'.rng == Drawn(st, d.dim)
    && sp.inverterPct == st'.followers.sentPct && Followed(site, r, st.followers, st'.followers, pct, clock.t)
  }

  // The setpoints and the new state that a cycle may produce.
  ghost predicate Stepped(site: Site, g: Option<Guidance>, st: State, clock: Accounts.Clock, cmd: Commands, r: Readings,
                          sp: Setpoints, st': State, amps: WaterFill.Amps, spare: real)
    requires site.Valid() && st.Valid(site) && Allocation.Situation(site, r, g).Sound()
  {
    var d := Decide(site, g, st, clock, cmd, r);
    Shared(site, g, st, clock, r, d, sp, amps, spare) && Remembered(site, g, st, clock, r, d, sp, st')
  }

  lemma PvPctStays(site: Site, st: State, d: Decision, t: real)
    requires site.Valid() && st.Valid(site) && 0.0 <= d.feedInPct <= 100.0
    ensures 0.0 <= PvPct(site, st, d, t) <= 100.0
  {
    PvLimits.TargetIsAPercentage(site, d.feedInPct, d.m.gridKw, d.m.pvKw, d.m.batteryKw, d.ChargeKw(), d.DischargeKw());
    PvLimits.RiseIsNotNegative(site.pvRampPctPerS, st.lastT, t);
  }

  lemma SteppedIsValid(site: Site, g: Option<Guidance>, st: State, clock: Accounts.Clock, cmd: Commands, r: Readings,
                       d: Decision, sp: Setpoints, st': State)
    requires site.Valid() && st.Valid(site) && Allocation.Situation(site, r, g).Sound()
    requires |sp.chargerA| == |site.chargers| && d == Decide(site, g, st, clock, cmd, r)
    requires Remembered(site, g, st, clock, r, d, sp, st')
    ensures st'.Valid(site)
  {
    PvLimits.FeedInIsAPercentage(site, cmd, Accounts.Rolled(st.books.totals, clock).curtailedKwh);
    PvPctStays(site, st, d, clock.t);
    Budgets.StepKeepsConsistent(site, st.budget, clock.t, d.dim, d.floorKw, d.heldKw, Random.Unit(Drawn(st, d.dim)));
  }

  // The state after a cycle with this PV limit and these followers.
  ghost function StateAfter(site: Site, g: Option<Guidance>, st: State, clock: Accounts.Clock, r: Readings, d: Decision,
                            sp: Setpoints, pct: real, followers: PvLimits.Followers): State
    requires site.Valid() && st.Valid(site) && Allocation.Situation(site, r, g).Sound()
    requires |sp.chargerA| == |site.chargers|
  {
    State(
      Accounts.Advanced(st.books.(totals := Accounts.Rolled(st.books.totals, clock)), clock, d.dim, d.m.pvKw,
                        CurtailedKw(r, d, pct)),
      d.outcome.m, Budgets.SeenNext(st.seen, clock.t, d.m.SurplusKw(), site.surplusHoldS),
      Allocation.Switched(st.chargers, Allocation.Charges(Allocation.Situation(site, r, g), sp.chargerA), clock.t,
                          |site.chargers|),
      pct, Some(clock.t), followers, Drawn(st, d.dim))
  }

  lemma SteppedTo(site: Site, g: Option<Guidance>, st: State, clock: Accounts.Clock, cmd: Commands, r: Readings,
                  d: Decision, sp: Setpoints, pct: real, followers: PvLimits.Followers, amps: WaterFill.Amps, spare: real)
    requires site.Valid() && st.Valid(site) && Allocation.Situation(site, r, g).Sound()
    requires d == Decide(site, g, st, clock, cmd, r) && Shared(site, g, st, clock, r, d, sp, amps, spare)
    requires sp.pvPct == pct == PvPct(site, st, d, clock.t) && sp.inverterPct == followers.sentPct
    requires Followed(site, r, st.followers, followers, pct, clock.t)
    ensures var after := StateAfter(site, g, st, clock, r, d, sp, pct, followers);
      after.Valid(site) && Stepped(site, g, st, clock, cmd, r, sp, after, amps, spare)
  {
    var after := StateAfter(site, g, st, clock, r, d, sp, pct, followers);
    assert Remembered(site, g, st, clock, r, d, sp, after);
    SteppedIsValid(site, g, st, clock, cmd, r, d, sp, after);
  }

  class Controller {
    const site: Site
    const accounting: Accounts.Accounting
    const recorder: Compliance.Recorder
    var guidance: Option<Guidance>
    var wasDimmed: bool
    var lastBudgetKw: Option<real>
    var release: Option<Budgets.Release>
    var lastPvPct: real
    var lastT: Option<real>
    var chargers: Allocation.Memory
    var surplusSeen: seq<Budgets.Seen>
    var rng: bv64
    var followers: PvLimits.Followers

    ghost function View(): State
      reads this, accounting
    {
      State(accounting.View(), Budgets.Memory(wasDimmed, lastBudgetKw, release), surplusSeen, chargers, lastPvPct, lastT,
            followers, rng)
    }

    ghost predicate Valid()
      reads this, accounting
    {
      site.Valid() && View().Valid(site)
    }

    constructor (site: Site, totals: Accounts.Totals, seed: bv64, digest: Compliance.Digest, siteId: string,
                 grace: real)
      requires site.Valid()
      ensures recorder.View() == Compliance.Memory(0, None, 0, Compliance.GENESIS, [])
      ensures recorder.digest == digest && recorder.site == siteId && recorder.grace == grace
      ensures Valid() && this.site == site && guidance == None
      ensures View().books == Accounts.Books(totals, None) && View().budget == Budgets.Memory(false, None, None)
      ensures View().pvPct == 100.0 && View().seen == [] && View().rng == Random.Seeded(seed)
      ensures forall i :: 0 <= i < |site.chargers| ==> !chargers.on[i] && chargers.switchedAt[i].None?
    {
      this.site := site;
      accounting := new Accounts.Accounting.Restore(totals);
      recorder := new Compliance.Recorder(digest, siteId, grace, 0);
      guidance, wasDimmed, lastBudgetKw, release := None, false, None, None;
      lastPvPct, lastT, surplusSeen, rng := 100.0, None, [], Random.Seeded(seed);
      chargers := Allocation.Memory(seq(|site.chargers|, i => false), seq(|site.chargers|, i => None));
      followers := PvLimits.Followers([], []);
    }

    method SetGuidance(g: Option<Guidance>)
      modifies this`guidance
      ensures guidance == g
    {
      guidance := g;
    }

    // Forgets what is too old, remembers the current surplus, and takes the least of what is left.
    method HoldSurplus(t: real, surplusKw: Option<real>) returns (heldKw: Option<real>)
      modifies this`surplusSeen
      ensures surplusSeen == Budgets.SeenNext(old(surplusSeen), t, surplusKw, site.surplusHoldS)
      ensures heldKw == Budgets.Held(old(surplusSeen), t, surplusKw, site.surplusHoldS)
    {
      ghost var before := surplusSeen;
      var kept: seq<Budgets.Seen> := [];
      for i := 0 to |surplusSeen|
        invariant kept == Budgets.Kept(before[..i], t, site.surplusHoldS) && surplusSeen == before
      {
        assert before[..i + 1][..i] == before[..i];
        if Budgets.Recent(surplusSeen[i], t, site.surplusHoldS) {
          kept := kept + [surplusSeen[i]];
        }
      }
      assert before[..|before|] == before;
      heldKw := None;
      if surplusKw.Some? {
        kept := kept + [Budgets.Seen(t, surplusKw.value)];
        var least := surplusKw.value;
        for i := 0 to |kept|
          invariant least == Budgets.Least(kept[..i], surplusKw.value)
        {
          assert kept[..i + 1][..i] == kept[..i];
          least := Min(least, kept[i].kw);
        }
        assert kept[..|kept|] == kept;
        heldKw := Some(least);
      }
      surplusSeen := kept;
    }

    // The dimmed budget, or the way back to none.
    method NextBudget(t: real, dim: bool, floorKw: real, heldKw: Option<real>) returns (outcome: Budgets.Outcome)
      requires site.Valid() && Budgets.Consistent(Budgets.Memory(wasDimmed, lastBudgetKw, release))
      modifies this`wasDimmed, this`lastBudgetKw, this`release, this`rng
      ensures rng == if old(wasDimmed) && !dim then Random.Next(old(rng)) else old(rng)
      ensures outcome == Budgets.Step(site, old(Budgets.Memory(wasDimmed, lastBudgetKw, release)), t, dim, floorKw,
                                      heldKw, Random.Unit(rng))
      ensures Budgets.Memory(wasDimmed, lastBudgetKw, release) == outcome.m
    {
      var mode, budget, wait := Budgets.Normal, None, None;
      if dim {
        mode, release := Budgets.Dimmed, None;
        budget := Some(floorKw + heldKw.UnwrapOr(0.0) - site.marginKw);
      } else {
        if wasDimmed {
          rng := Random.Next(rng);
          release := Some(Budgets.Release(t + Budgets.WaitS(site, Random.Unit(rng)), lastBudgetKw.value));
        }
        if release.Some? && t < release.value.start {
          mode, wait, budget := Budgets.Releasing, Some(release.value.start - t), Some(release.value.fromKw);
        } else if release.Some? && t - release.value.start < site.releaseRampS {
          mode := Budgets.Releasing;
          budget := Some(Budgets.RampedKw(release.value.fromKw, site.RatedLoadsKw(), t - release.value.start,
                                          site.releaseRampS));
        } else {
          release := None;
        }
      }
      wasDimmed, lastBudgetKw := dim, budget;
      outcome := Budgets.Outcome(mode, budget, wait, Budgets.Memory(wasDimmed, lastBudgetKw, release));
    }

    // All up to the sharing of the budget.
    method Prepare(clock: Accounts.Clock, cmd: Commands, r: Readings) returns (d: Decision)
      requires Valid()
      modifies this`wasDimmed, this`lastBudgetKw, this`release, this`rng, this`surplusSeen, accounting
      ensures d == Decide(site, guidance, old(View()), clock, cmd, r)
      ensures surplusSeen == Budgets.SeenNext(old(surplusSeen), clock.t, d.m.SurplusKw(), site.surplusHoldS)
      ensures Budgets.Memory(wasDimmed, lastBudgetKw, release) == d.outcome.m && rng == Drawn(old(View()), d.dim)
      ensures accounting.View()
              == old(accounting.View()).(totals := Accounts.Rolled(old(accounting.totals), clock))
    {
      var m := TakeMeasures(site, r);
      var floor := FloorFor(site, cmd);
      var held := HoldSurplus(clock.t, m.SurplusKw());
      accounting.Roll(clock);
      var dim := Accounts.Dims(site.policy.consumption, cmd, accounting.totals);
      var outcome := NextBudget(clock.t, dim, floor, held);
      var feedIn := PvLimits.FeedInPct(site, cmd, accounting.totals.curtailedKwh);
      var balance := BalanceOf(site, guidance, m, r, outcome.mode != Budgets.Normal, floor, feedIn);
      var battery := Batteries.PlanBatteries(site, r.batteries, balance);
      d := Decision(m, dim, floor, held, outcome, feedIn, battery);
    }

    // The PV limit, for the plant and for each inverter.
    method LimitPv(t: real, d: Decision, r: Readings) returns (pct: real)
      requires site.Valid() && |followers.sentPct| == |followers.overSince|
      modifies this`lastPvPct, this`lastT, this`followers
      ensures pct == PvLimits.LimitPct(old(lastPvPct), TargetPct(site, d),
                                       PvLimits.RiseOf(site.pvRampPctPerS, old(lastT), t))
      ensures lastPvPct == pct && lastT == Some(t) && Followed(site, r, old(followers), followers, pct, t)
    {
      pct := PvLimits.LimitPct(lastPvPct, TargetPct(site, d), PvLimits.RiseOf(site.pvRampPctPerS, lastT, t));
      lastPvPct, lastT := pct, Some(t);
      var ignoring;
      followers, ignoring := PvLimits.FollowLimits(site, r.inverters, followers, pct, t);
    }

    // The budget shared among the loads.
    method Share(clock: Accounts.Clock, d: Decision, r: Readings)
      returns (currents: seq<real>, hp: seq<real>, amps: WaterFill.Amps, spare: real)
      requires Allocation.Situation(site, r, guidance).Sound()
      requires Allocation.Situation(site, r, guidance).Remembers(chargers)
      modifies this`chargers
      ensures var s := Allocation.Situation(site, r, guidance);
        && |currents| == |site.chargers| && |hp| == |site.heatPumps|
        && (match d.LoadsKw()
            case None => currents == s.Unlimited() && hp == RatedKw(site.heatPumps)
            case Some(kw) => Allocation.Allocated(s, old(chargers), clock.t, kw, currents, hp, amps, spare))
        && chargers == Allocation.Switched(old(chargers), Allocation.Charges(s, currents), clock.t, |currents|)
    {
      var s := Allocation.Situation(site, r, guidance);
      ghost var before := chargers;
      currents, hp, chargers, amps, spare := Allocation.Allocate(s, chargers, clock.t, d.LoadsKw());
      if d.LoadsKw().Some? {
        Allocation.GrantsAddUp(s, before, clock.t, d.LoadsKw().value, currents, hp, amps, spare);
      }
    }

    // The PV limit and the running totals.
    method Settle(clock: Accounts.Clock, d: Decision, r: Readings) returns (pct: real)
      requires site.Valid() && |followers.sentPct| == |followers.overSince|
      modifies this`lastPvPct, this`lastT, this`followers, accounting
      ensures pct == PvLimits.LimitPct(old(lastPvPct), TargetPct(site, d),
                                       PvLimits.RiseOf(site.pvRampPctPerS, old(lastT), clock.t))
      ensures lastPvPct == pct && lastT == Some(clock.t) && Followed(site, r, old(followers), followers, pct, clock.t)
      ensures accounting.View()
              == Accounts.Advanced(old(accounting.View()), clock, d.dim, d.m.pvKw, CurtailedKw(r, d, pct))
    {
      pct := LimitPv(clock.t, d, r);
      accounting.Advance(clock, d.dim, d.m.pvKw, CurtailedKw(r, d, pct));
    }

    // What is decided and granted.
    method Grant(clock: Accounts.Clock, cmd: Commands, r: Readings)
      returns (d: Decision, currents: seq<real>, hp: seq<real>, amps: WaterFill.Amps, spare: real)
      requires Valid() && Allocation.Situation(site, r, guidance).Sound()
      modifies this`wasDimmed, this`lastBudgetKw, this`release, this`rng, this`surplusSeen, this`chargers, accounting
      ensures d == Decide(site, guidance, old(View()), clock, cmd, r)
      ensures surplusSeen == Budgets.SeenNext(old(surplusSeen), clock.t, d.m.SurplusKw(), site.surplusHoldS)
      ensures Budgets.Memory(wasDimmed, lastBudgetKw, release) == d.outcome.m && rng == Drawn(old(View()), d.dim)
      ensures accounting.View()
              == old(accounting.View()).(totals := Accounts.Rolled(old(accounting.totals), clock))
      ensures var s := Allocation.Situation(site, r, guidance);
        && |currents| == |site.chargers| && |hp| == |site.heatPumps|
        && (match d.LoadsKw()
            case None => currents == s.Unlimited() && hp == RatedKw(site.heatPumps)
            case Some(kw) => Allocation.Allocated(s, old(chargers), clock.t, kw, currents, hp, amps, spare))
        && chargers == Allocation.Switched(old(chargers), Allocation.Charges(s, currents), clock.t, |currents|)
    {
      d := Prepare(clock, cmd, r);
      currents, hp, amps, spare := Share(clock, d, r);
    }

    // Everything a cycle decides and remembers.
    method Regulate(clock: Accounts.Clock, cmd: Commands, r: Readings)
      returns (sp: Setpoints, d: Decision, ghost amps: WaterFill.Amps, ghost spare: real)
      requires Valid() && Allocation.Situation(site, r, guidance).Sound()
      modifies this, accounting
      ensures Valid() && guidance == old(guidance) && d == Decide(site, guidance, old(View()), clock, cmd, r)
      ensures Stepped(site, guidance, old(View()), clock, cmd, r, sp, View(), amps, spare)
    {
      ghost var st := View();
      var decision, currents, hp, filled, left := Grant(clock, cmd, r);
      d, amps, spare := decision, filled, left;
      var pct := Settle(clock, d, r);
      sp := Setpoints(pct, followers.sentPct, currents, hp, d.batteryKw,
                      AskedKw(Allocation.Situation(site, r, guidance), hp));
      SteppedTo(site, guidance, st, clock, cmd, r, d, sp, pct, followers, amps, spare);
      assert View() == StateAfter(site, guidance, st, clock, r, d, sp, pct, followers);
    }

    // One control cycle.
    method Step(clock: Accounts.Clock, cmd: Commands, r: Readings)
      returns (sp: Setpoints, ghost amps: WaterFill.Amps, ghost spare: real)
      requires Valid() && Allocation.Situation(site, r, guidance).Sound()
      modifies this, accounting, recorder
      ensures Valid() && guidance == old(guidance)
      ensures Stepped(site, guidance, old(View()), clock, cmd, r, sp, View(), amps, spare)
      ensures recorder.View()
              == Compliance.Observed(recorder.digest, recorder.site, recorder.grace, old(recorder.View()),
                                     ObservationOf(clock, cmd, Decide(site, guidance, old(View()), clock, cmd, r)))
    {
      var setpoints, d, filled, left := Regulate(clock, cmd, r);
      sp, amps, spare := setpoints, filled, left;
      recorder.Observe(ObservationOf(clock, cmd, d));
    }
  }
}
