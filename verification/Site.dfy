// The site: configuration, what the devices report, and the regulatory numbers
// (crates/control/src/rules.rs, policy.rs, and the types of controller.rs).
module Sites {
  import opened Basics
  import opened Sums

  // ---------------------------------------------------------------- configuration

  datatype Jurisdiction = De | At | Ch

  // Either Pmin,14a, or a contract; 0 minutes is no daily limit.
  datatype Rule = De14a | Contract(minKw: real, maxMinutesPerDay: real)

  datatype Policy = Policy(
    jurisdiction: Jurisdiction, consumption: Rule, feedInCapPct: Option<real>, curtailmentPct: Option<real>,
    enforceCurtailment: bool)
  {
    // The configurations that pass validation.
    predicate Valid() {
      && (feedInCapPct.Some? ==> 0.0 <= feedInCapPct.value <= 100.0)
      && (curtailmentPct.Some? ==> 0.0 <= curtailmentPct.value <= 100.0)
      && (consumption.Contract? ==> consumption.minKw >= 0.0 && 0.0 <= consumption.maxMinutesPerDay <= 1440.0)
      && (jurisdiction == De ==> consumption == De14a)
    }
  }

  datatype Charger = Charger(maxA: real, failsafeA: real, optedOut: bool)
  {
    // A negative failsafe current passes.
    predicate Valid() {
      EV_MIN_A <= maxA <= 63.0 && failsafeA <= maxA && (failsafeA <= 0.0 || failsafeA >= 6.0)
    }
  }

  datatype HeatPump = HeatPump(ratedKw: real, minKw: real, optedOut: bool)
  {
    predicate Valid() {
      0.0 <= minKw <= ratedKw && ratedKw > 0.0
    }
  }

  datatype Battery = Battery(
    capacityKwh: real, maxChargeKw: real, maxDischargeKw: real, minSocPct: real, maxSocPct: real)
  {
    predicate Valid() {
      && capacityKwh > 0.0 && maxChargeKw >= 0.0 && maxDischargeKw >= 0.0
      && 0.0 <= minSocPct < maxSocPct <= 100.0
    }
  }

  datatype FeedInReference = PlantOutput | GridConnectionPoint

  datatype Site = Site(
    policy: Policy, pvInstalledKw: real, connectionKw: real, annualYieldKwh: real, chargers: seq<Charger>,
    heatPumps: seq<HeatPump>, batteries: seq<Battery>, reference: FeedInReference, releaseRampS: real,
    releaseDelayMaxS: real, followTimeoutS: real, pvRampPctPerS: real, marginKw: real, minDwellS: real,
    deadlineGuardS: real, surplusHoldS: real, importTargetKw: real)
  {
    // The configurations that pass validation.
    predicate Valid() {
      && policy.Valid()
      && pvInstalledKw > 0.0 && connectionKw > 0.0 && pvRampPctPerS > 0.0
      && marginKw >= 0.0 && releaseRampS >= 0.0 && minDwellS >= 0.0 && surplusHoldS >= 0.0
      && releaseDelayMaxS >= 0.0 && followTimeoutS >= 0.0
      && (forall i :: 0 <= i < |chargers| ==> chargers[i].Valid())
      && (forall i :: 0 <= i < |heatPumps| ==> heatPumps[i].Valid())
      && (forall i :: 0 <= i < |batteries| ==> batteries[i].Valid())
    }

    predicate ExemptCharger(i: nat)
      requires i < |chargers|
    {
      policy.consumption.Contract? && chargers[i].optedOut
    }

    predicate ExemptHeatPump(i: nat)
      requires i < |heatPumps|
    {
      policy.consumption.Contract? && heatPumps[i].optedOut
    }

    function RatedLoadsKw(): real {
      Sum(seq(|chargers|, i requires 0 <= i < |chargers| => KwOf(chargers[i].maxA))) + Sum(RatedKw(heatPumps))
    }

    function FloorKw(): real {
      match policy.consumption
      case De14a => PminKw(|chargers| + |batteries|, RatedKw(heatPumps), [])
      case Contract(minKw, _) => minKw
    }
  }

  // ---------------------------------------------------------------- commands, readings, guidance

  datatype Commands = Commands(dim: bool, feedInLimitPct: real, emergency: bool, limitKw: Option<real>)

  datatype ChargerReading = ChargerReading(
    online: bool, carWaiting: bool, powerKw: real, sessionKwh: real, remainingKwh: Option<real>,
    departureS: Option<real>, carMaxA: Option<real>)
  datatype HeatPumpReading = HeatPumpReading(online: bool, powerKw: real, demandKw: real)
  datatype InverterReading = InverterReading(online: bool, kw: real, ratedKw: real)
  datatype BatteryReading = BatteryReading(online: bool, socPct: real, powerKw: real)

  datatype Readings = Readings(
    gridKw: Option<real>, pvKw: Option<real>, pvAvailableKw: Option<real>, inverters: seq<InverterReading>,
    chargers: seq<ChargerReading>, heatPumps: seq<HeatPumpReading>, batteries: seq<BatteryReading>)

  datatype Guidance = Guidance(
    gridKw: Option<real>, chargerKw: seq<Option<real>>, heatPumpKw: seq<Option<real>>, dimExpected: bool)

  // Longest time between two cycles that is counted at once.
  const MAX_STEP_S := 10.0

  // The time since the last cycle, as far as it counts; nothing when the clock goes back.
  function Gap(lastT: Option<real>, t: real): real {
    match lastT
    case None => 0.0
    case Some(last) => Clamp(t - last, 0.0, MAX_STEP_S)
  }

  // The floor for these commands: the limit sent with them, never below the legal minimum.
  function FloorFor(site: Site, cmd: Commands): real {
    match cmd.limitKw
    case None => site.FloorKw()
    case Some(limit) => Max(limit, site.FloorKw())
  }

  // ---------------------------------------------------------------- regulatory numbers

  const PMIN_PER_DEVICE_KW := 4.2
  const EV_MIN_A := 6.0

  // Three phases of 230 V.
  function KwOf(currentA: real): real {
    3.0 * 230.0 * currentA / 1000.0
  }

  function CurrentOf(kw: real): real {
    kw * 1000.0 / (3.0 * 230.0)
  }

  function SimultaneityFactor(n: nat): real {
    if n <= 1 then 0.0
    else if n == 2 then 0.8
    else if n == 3 then 0.75
    else if n == 4 then 0.7
    else if n == 5 then 0.65
    else if n == 6 then 0.6
    else if n == 7 then 0.55
    else if n == 8 then 0.5
    else 0.45
  }

  function RatedKw(heatPumps: seq<HeatPump>): seq<real> {
    seq(|heatPumps|, i requires 0 <= i < |heatPumps| => heatPumps[i].ratedKw)
  }

  predicate AnyLarge(kw: seq<real>) {
    exists i :: 0 <= i < |kw| && kw[i] > 11.0
  }

  // What the devices besides the first add.
  function SharedKw(n: nat): real
    requires n > 0
  {
    (n - 1) as real * SimultaneityFactor(n) * PMIN_PER_DEVICE_KW
  }

  // Pmin,14a for control through an energy management system (section 4.5.2).
  function PminKw(chargersAndStorage: nat, heatPumps: seq<real>, airConditioners: seq<real>): real {
    var n := chargersAndStorage + |heatPumps| + |airConditioners|;
    if n == 0 then 0.0
    else if AnyLarge(heatPumps) || AnyLarge(airConditioners) then
      Max(0.4 * Sum(heatPumps), 0.4 * Sum(airConditioners)) + SharedKw(n)
    else PMIN_PER_DEVICE_KW + SharedKw(n)
  }

  lemma SharedGrows(n: nat)
    requires n > 0
    ensures 0.0 <= SharedKw(n) <= SharedKw(n + 1)
  {
    if n == 1 {
      assert SharedKw(1) == 0.0;
    } else if n < 9 {
      assert 1 < n < 9;
      assert n == 2 || n == 3 || n == 4 || n == 5 || n == 6 || n == 7 || n == 8;
    }
  }

  predicate Positive(kw: seq<real>) {
    forall i :: 0 <= i < |kw| ==> kw[i] > 0.0
  }

  lemma {:induction false} SumAtLeast(kw: seq<real>, k: nat)
    requires Positive(kw) && k < |kw|
    ensures Sum(kw) >= kw[k]
    decreases |kw|
  {
    var init := kw[..|kw| - 1];
    if |init| > 0 {
      SumAtLeast(init, if k < |init| then k else 0);
    }
  }

  // With a device there is at least the minimum of one; none needs nothing.
  lemma PminCoversADevice(other: nat, heatPumps: seq<real>)
    requires Positive(heatPumps)
    ensures PminKw(other, heatPumps, []) >= if other + |heatPumps| == 0 then 0.0 else PMIN_PER_DEVICE_KW
  {
    var n := other + |heatPumps|;
    if n > 0 {
      SharedGrows(n);
      if AnyLarge(heatPumps) {
        var k :| 0 <= k < |heatPumps| && heatPumps[k] > 11.0;
        SumAtLeast(heatPumps, k);
      }
    }
  }

  // Another wallbox or battery never lowers what the operator must leave.
  lemma PminGrowsWithAWallbox(other: nat, heatPumps: seq<real>)
    requires Positive(heatPumps)
    ensures PminKw(other, heatPumps, []) <= PminKw(other + 1, heatPumps, [])
  {
    var n := other + |heatPumps|;
    PminCoversADevice(other + 1, heatPumps);
    if n > 0 {
      SharedGrows(n);
    }
  }

  // Nor does another heat pump, also where it makes the rule for large devices apply.
  lemma PminGrowsWithAHeatPump(other: nat, heatPumps: seq<real>, kw: real)
    requires Positive(heatPumps) && kw > 0.0
    ensures PminKw(other, heatPumps, []) <= PminKw(other, heatPumps + [kw], [])
  {
    var more := heatPumps + [kw];
    var n := other + |heatPumps|;
    PminCoversADevice(other, more);
    if n > 0 {
      SharedGrows(n);
      assert more[..|heatPumps|] == heatPumps;
      if AnyLarge(heatPumps) {
        var k :| 0 <= k < |heatPumps| && heatPumps[k] > 11.0;
        assert more[k] > 11.0;
      } else if AnyLarge(more) {
        SumAtLeast(more, |heatPumps|);
        assert kw > 11.0;
      }
    }
  }

  lemma FloorIsNotNegative(site: Site, cmd: Commands)
    requires site.Valid()
    ensures 0.0 <= site.FloorKw() <= FloorFor(site, cmd)
  {
    PminCoversADevice(|site.chargers| + |site.batteries|, RatedKw(site.heatPumps));
  }
}
