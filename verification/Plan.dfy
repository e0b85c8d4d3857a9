// The planner's program (crates/planner/src/model.rs:226-502): what `plan` declares, and the loops that declare it.
module Plans {
  import opened Basics
  import opened Qps

  function Flat(parts: seq<seq<Declaration>>): seq<Declaration> {
    if parts == [] then [] else Flat(parts[..|parts| - 1]) + parts[|parts| - 1]
  }

  // A variable from zero for each of the upper bounds, all at one price.
  function PricedVars(start: nat, most: seq<real>, c: real): seq<Declaration> {
    if most == [] then []
    else
      var n := |most| - 1;
      PricedVars(start, most[..n], c) + [Variable(Some(0.0), Some(most[n])), Linear(start + n, c)]
  }

  // ---------------------------------------------------------------- input

  datatype Forecast = Forecast(
    pvKw: seq<real>, pvSigmaKw: seq<real>, pvWorstKw: seq<real>, baseKw: seq<real>, baseSigmaKw: real,
    priceImport: seq<real>, priceExport: seq<real>)

  datatype Battery = Battery(
    energyKwh: real, capacityKwh: real, minKwh: real, maxKwh: real, bandLoKwh: real, bandHiKwh: real, chargeKw: real,
    dischargeKw: real, etaCharge: real, etaDischarge: real, degradation: real, dimmable: bool)

  datatype Ev = Ev(remainingKwh: real, maxKw: real, departureH: Option<real>, efficiency: real, dimmable: bool)

  datatype Heat = Heat(
    indoorC: real, ua: real, cap: real, maxKw: real, cop: seq<real>, gainsKw: seq<real>, outdoorC: seq<real>,
    tMinC: seq<real>, tMaxC: seq<real>, dimmable: bool)

  // z is the normal quantile of the chance constraints.
  datatype Uncertainty = Deterministic | Chance(z: real) | Robust

  datatype DemandCharge = DemandCharge(eurPerKw: real, peakSoFarKw: real)

  datatype Weights = Weights(
    comfort: real, evUnmet: real, socBand: real, softEnvelope: real, smoothing: real, terminal: Option<real>)

  // An infinite limit is None.
  datatype Input = Input(
    dt: real, f: Forecast, importKw: Option<real>, exportKw: seq<Option<real>>, dim: seq<bool>, dimFloorKw: real,
    battery: Option<Battery>, evs: seq<Ev>, heat: Option<Heat>, uncertainty: Uncertainty, recovery: nat,
    demand: Option<DemandCharge>, w: Weights)
  {
    function Steps(): nat {
      |f.pvKw|
    }

    // The inputs `check` lets pass.
    predicate Checked() {
      && Steps() > 0 && dt > 0.0
      && |f.pvSigmaKw| == |f.pvWorstKw| == |f.baseKw| == |f.priceImport| == |f.priceExport| == Steps()
      && |exportKw| == |dim| == Steps()
      && (heat.Some? ==>
            var h := heat.value;
            && |h.cop| == |h.gainsKw| == |h.outdoorC| == |h.tMinC| == |h.tMaxC| == Steps()
            && h.cap > 0.0 && dt * h.ua < h.cap)
      && (battery.Some? ==>
            battery.value.capacityKwh > 0.0 && battery.value.etaCharge > 0.0 && battery.value.etaDischarge > 0.0)
      && (demand.Some? ==> demand.value.eurPerKw >= 0.0)
    }

    // Never price imports below exports.
    function PriceIn(k: nat): real
      requires Checked() && k < Steps()
    {
      Max(f.priceImport[k], f.priceExport[k])
    }

    // ---- uncertainty

    function PvLow(k: nat): real
      requires Checked() && k < Steps()
    {
      match uncertainty
      case Deterministic => f.pvKw[k]
      case Chance(z) => Max(f.pvKw[k] - z * f.pvSigmaKw[k], 0.0)
      case Robust => Min(f.pvWorstKw[k], f.pvKw[k])
    }

    function BaseHigh(k: nat): real
      requires Checked() && k < Steps()
    {
      f.baseKw[k] + (match uncertainty
                     case Deterministic => 0.0
                     case Chance(z) => z * f.baseSigmaKw
                     case Robust => 2.0 * f.baseSigmaKw)
    }

    // Back to the start of the expected dimming.
    function Back(k: nat): (s: nat)
      requires Checked() && k < Steps()
      ensures s <= k
    {
      if k > 0 && dim[k] && dim[k - 1] then Back(k - 1) else k
    }

    function WindowStart(k: nat): (s: nat)
      requires Checked() && k < Steps()
      ensures s <= k
    {
      var window := if recovery < 1 then 1 else recovery;
      if Back(k) + 1 <= window then 0 else Back(k) + 1 - window
    }

    function SigmaSum(from: nat, to: nat): real
      requires Checked() && from <= to <= Steps()
    {
      if from == to then 0.0 else SigmaSum(from, to - 1) + dt * (f.pvSigmaKw[to - 1] + f.baseSigmaKw)
    }

    function LowSum(from: nat, to: nat): real
      requires Checked() && from <= to <= Steps()
    {
      if from == to then 0.0
      else LowSum(from, to - 1)
           + dt * (Max(f.pvKw[to - 1] - f.pvWorstKw[to - 1], 0.0) + 2.0 * f.baseSigmaKw)
    }

    predicate AtRisk(k: nat)
      requires Checked() && k < Steps()
    {
      exists m :: k <= m < Steps() && m < k + (if recovery < 1 then 1 else recovery) && dim[m]
    }

    // How much the lower edge of the state of charge is tightened.
    function Tightened(k: nat): real
      requires Checked() && k < Steps()
    {
      if !AtRisk(k) then 0.0
      else
        match uncertainty
        case Deterministic => 0.0
        case Chance(z) => z * SigmaSum(WindowStart(k), k + 1)
        case Robust => LowSum(WindowStart(k), k + 1)
    }

    // ---- the numbers of the variables

    predicate Soft(k: nat)
      requires Checked() && k < Steps()
    {
      battery.Some? && Tightened(k) > 0.0
    }

    function BatteryVars(k: nat): nat
      requires Checked() && k < Steps()
    {
      if battery.None? then 0 else if Soft(k) then 6 else 5
    }

    function HeatVars(): nat {
      if heat.None? then 0 else 4
    }

    // The first variable of step k: grid in, grid out, PV, then battery, heat pump and cars.
    function At(k: nat): nat
      requires Checked() && k <= Steps()
    {
      if k == 0 then 0 else At(k - 1) + 3 + BatteryVars(k - 1) + HeatVars() + |evs|
    }

    function HeatAt(k: nat): nat
      requires Checked() && k < Steps()
    {
      At(k) + 3 + BatteryVars(k)
    }

    function EvAt(k: nat): nat
      requires Checked() && k < Steps()
    {
      HeatAt(k) + HeatVars()
    }

    function UnmetAt(): nat
      requires Checked()
    {
      At(Steps())
    }

    function PeakAt(): nat
      requires Checked()
    {
      UnmetAt() + |evs|
    }

    function Total(): nat
      requires Checked()
    {
      PeakAt() + (if demand.Some? then 1 else 0)
    }

    // ---- coefficients

    function PerStep(eurPerHour: real): real {
      dt * eurPerHour
    }

    function ExportEur(k: nat): real
      requires Checked() && k < Steps()
    {
      -dt * f.priceExport[k]
    }

    function ImportEur(k: nat): real
      requires Checked() && k < Steps()
    {
      PerStep(PriceIn(k))
    }

    // Use PV rather than curtail it when indifferent.
    function PvEur(): real {
      -0.0001 * dt
    }

    // When it makes no difference, charge sooner rather than later.
    function LaterEur(k: nat): real {
      0.00001 * dt * k as real
    }

    // How the charge grows with the charging power, falls with the discharging power.
    function Stored(b: Battery): real {
      b.etaCharge * dt
    }

    function Drained(b: Battery): real
      requires b.etaDischarge > 0.0
    {
      dt / b.etaDischarge
    }

    // How the building keeps its temperature, warms with the heat pump, and what it gains anyway.
    function Kept(h: Heat): real
      requires h.cap > 0.0
    {
      1.0 - dt * h.ua / h.cap
    }

    function Warmed(h: Heat, k: nat): real
      requires h.cap > 0.0 && k < |h.cop|
    {
      dt * h.cop[k] / h.cap
    }

    function Gained(h: Heat, k: nat): real
      requires h.cap > 0.0 && k < |h.gainsKw| == |h.outdoorC|
    {
      dt * (h.gainsKw[k] + h.ua * h.outdoorC[k]) / h.cap
    }

    function StartC(h: Heat): real
      requires h.cap > 0.0 && |h.gainsKw| == |h.outdoorC| > 0
    {
      Gained(h, 0) + Kept(h) * h.indoorC
    }

    // ---- what a step declares

    function GridCalls(k: nat): seq<Declaration>
      requires Checked() && k < Steps()
    {
      var g := At(k);
      [Variable(Some(0.0), importKw), Linear(g, ImportEur(k)),
       Variable(Some(0.0), if exportKw[k].None? then None else Some(Max(exportKw[k].value, 0.0))),
       Linear(g + 1, ExportEur(k)),
       Variable(Some(0.0), Some(Max(f.pvKw[k], 0.0))), Linear(g + 2, PvEur())]
    }

    function EnergyTerms(k: nat): Terms
      requires Checked() && k < Steps() && battery.Some?
    {
      var g, b := At(k), battery.value;
      [(g + 5, 1.0), (g + 3, -Stored(b)), (g + 4, Drained(b))]
      + (if k == 0 then [] else [(At(k - 1) + 5, -1.0)])
    }

    function PowerCalls(k: nat): seq<Declaration>
      requires Checked() && k < Steps() && battery.Some?
    {
      var g, b := At(k), battery.value;
      [Variable(Some(0.0), Some(b.chargeKw)), Variable(Some(0.0), Some(b.dischargeKw)),
       Linear(g + 3, PerStep(b.degradation)), Linear(g + 4, PerStep(b.degradation)),
       Variable(Some(Min(b.minKwh, b.energyKwh)), Some(Max(b.maxKwh, b.energyKwh))),
       Equal(EnergyTerms(k), if k == 0 then b.energyKwh else 0.0)]
    }

    function BandCalls(k: nat): seq<Declaration>
      requires Checked() && k < Steps() && battery.Some?
    {
      var g, b := At(k), battery.value;
      [Variable(Some(0.0), None), Variable(Some(0.0), None), Linear(g + 6, PerStep(w.socBand)), Linear(g + 7, PerStep(w.socBand)),
       AtLeast([(g + 5, 1.0), (g + 6, 1.0)], b.bandLoKwh), AtMost([(g + 5, 1.0), (g + 7, -1.0)], b.bandHiKwh)]
    }

    function EnvelopeCalls(k: nat): seq<Declaration>
      requires Checked() && k < Steps() && battery.Some?
    {
      var g := At(k);
      if Soft(k) then
        [Variable(Some(0.0), None), Linear(g + 8, w.softEnvelope),
         AtLeast([(g + 5, 1.0), (g + 8, 1.0)], battery.value.minKwh + Tightened(k))]
      else []
    }

    function SmoothCalls(k: nat): seq<Declaration>
      requires Checked() && k < Steps() && battery.Some?
    {
      if k > 0 && w.smoothing > 0.0 then
        var g, p := At(k), At(k - 1);
        [Squared([(g + 3, 1.0), (g + 4, -1.0), (p + 3, -1.0), (p + 4, 1.0)], w.smoothing)]
      else []
    }

    function HeatTerms(k: nat): Terms
      requires Checked() && k < Steps() && heat.Some?
    {
      var h, x := heat.value, HeatAt(k);
      [(x + 1, 1.0), (x, -Warmed(h, k))] + (if k == 0 then [] else [(HeatAt(k - 1) + 1, -Kept(h))])
    }

    function RoomCalls(k: nat): seq<Declaration>
      requires Checked() && k < Steps() && heat.Some?
    {
      var h := heat.value;
      [Variable(Some(0.0), Some(h.maxKw)), Variable(None, None),
       Equal(HeatTerms(k), if k == 0 then StartC(h) else Gained(h, k))]
    }

    function ComfortCalls(k: nat): seq<Declaration>
      requires Checked() && k < Steps() && heat.Some?
    {
      var h, x := heat.value, HeatAt(k);
      [Variable(Some(0.0), None), Variable(Some(0.0), None), Linear(x + 2, PerStep(w.comfort)), Linear(x + 3, PerStep(w.comfort)),
       AtLeast([(x + 1, 1.0), (x + 2, 1.0)], h.tMinC[k]), AtMost([(x + 1, 1.0), (x + 3, -1.0)], h.tMaxC[k])]
    }

    function Available(i: nat, k: nat): real
      requires Checked() && i < |evs|
    {
      match evs[i].departureH
      case None => 1.0
      case Some(h) => Clamp(h / dt - k as real, 0.0, 1.0)
    }

    // The first n cars.
    function EvCalls(k: nat, n: nat): seq<Declaration>
      requires Checked() && k < Steps() && n <= |evs|
    {
      PricedVars(EvAt(k), MostKws(k, n), LaterEur(k))
    }

    function MostKws(k: nat, n: nat): seq<real>
      requires Checked() && n <= |evs|
    {
      seq(n, i requires 0 <= i < n => MostKw(i, k))
    }

    function MostKw(i: nat, k: nat): real
      requires Checked() && i < |evs|
    {
      evs[i].maxKw * Available(i, k)
    }

    function EvTerms(k: nat, n: nat): Terms
      requires Checked() && k < Steps() && n <= |evs|
    {
      if n == 0 then [] else EvTerms(k, n - 1) + [(EvAt(k) + (n - 1), -1.0)]
    }

    // Everything but the grid.
    function LocalTerms(k: nat): Terms
      requires Checked() && k < Steps()
    {
      [(At(k) + 2, 1.0)] + StorageTerms(k) + HeatPumpTerms(k) + EvTerms(k, |evs|)
    }

    function StorageTerms(k: nat): Terms
      requires Checked() && k < Steps()
    {
      if battery.Some? then [(At(k) + 3, -1.0), (At(k) + 4, 1.0)] else []
    }

    function HeatPumpTerms(k: nat): Terms
      requires Checked() && k < Steps()
    {
      if heat.Some? then [(HeatAt(k), -1.0)] else []
    }

    function DimStorageTerms(k: nat): Terms
      requires Checked() && k < Steps()
    {
      if battery.Some? && battery.value.dimmable then [(At(k) + 3, 1.0), (At(k) + 4, -1.0)] else []
    }

    function DimHeatTerms(k: nat): Terms
      requires Checked() && k < Steps()
    {
      if heat.Some? && heat.value.dimmable then [(HeatAt(k), 1.0)] else []
    }

    // The balance of the grid and the local terms.
    function BalanceCall(k: nat, local: Terms): Declaration
      requires Checked() && k < Steps()
    {
      Equal([(At(k), 1.0), (At(k) + 1, -1.0)] + local, f.baseKw[k])
    }

    function DimEvTerms(k: nat, n: nat): Terms
      requires Checked() && k < Steps() && n <= |evs|
    {
      if n == 0 then []
      else DimEvTerms(k, n - 1) + (if evs[n - 1].dimmable then [(EvAt(k) + (n - 1), 1.0)] else [])
    }

    function DimTerms(k: nat): Terms
      requires Checked() && k < Steps()
    {
      DimStorageTerms(k) + DimHeatTerms(k) + DimEvTerms(k, |evs|)
    }

    function DimCalls(k: nat, terms: Terms): seq<Declaration>
      requires Checked() && k < Steps()
    {
      if dim[k] && terms != [] then [AtMost(terms, dimFloorKw + Max(PvLow(k) - BaseHigh(k), 0.0))] else []
    }

    function StorageCalls(k: nat): seq<Declaration>
      requires Checked() && k < Steps()
    {
      if battery.None? then [] else PowerCalls(k) + BandCalls(k) + EnvelopeCalls(k) + SmoothCalls(k)
    }

    function HeatCalls(k: nat): seq<Declaration>
      requires Checked() && k < Steps()
    {
      if heat.None? then [] else RoomCalls(k) + ComfortCalls(k)
    }

    // What belongs to the devices of a step.
    function DeviceCalls(k: nat): seq<Declaration>
      requires Checked() && k < Steps()
    {
      StorageCalls(k) + HeatCalls(k) + EvCalls(k, |evs|)
    }

    function StepCalls(k: nat): seq<Declaration>
      requires Checked() && k < Steps()
    {
      GridCalls(k) + DeviceCalls(k) + [BalanceCall(k, LocalTerms(k))] + DimCalls(k, DimTerms(k))
    }

    function StepParts(n: nat): seq<seq<Declaration>>
      requires Checked() && n <= Steps()
    {
      seq(n, k requires 0 <= k < n => StepCalls(k))
    }

    function FirstSteps(n: nat): seq<Declaration>
      requires Checked() && n <= Steps()
    {
      Flat(StepParts(n))
    }

    // ---- what comes after the steps

    function Charged(i: nat): real
      requires i < |evs|
    {
      evs[i].efficiency * dt
    }

    function ChargedTerms(i: nat, n: nat): Terms
      requires Checked() && i < |evs| && n <= Steps()
    {
      if n == 0 then [] else ChargedTerms(i, n - 1) + [(EvAt(n - 1) + i, Charged(i))]
    }

    function NeedKwh(i: nat): real
      requires Checked() && i < |evs|
    {
      var r := evs[i];
      match r.departureH
      case None => r.remainingKwh
      case Some(h) => if h / dt > Steps() as real then r.remainingKwh * Steps() as real / (h / dt) else r.remainingKwh
    }

    function UnmetCalls(n: nat): seq<Declaration>
      requires Checked() && n <= |evs|
    {
      if n == 0 then []
      else
        UnmetCalls(n - 1)
        + [Variable(Some(0.0), None), Linear(UnmetAt() + (n - 1), w.evUnmet),
           AtLeast(ChargedTerms(n - 1, Steps()) + [(UnmetAt() + (n - 1), 1.0)], Max(NeedKwh(n - 1), 0.0))]
    }

    function PeakFloor(): real
      requires demand.Some?
    {
      Max(demand.value.peakSoFarKw, 0.0)
    }

    function PeakLimit(): Option<real>
      requires demand.Some?
    {
      if importKw.None? then None else Some(Max(importKw.value, PeakFloor()))
    }

    function PeakRows(n: nat): seq<Declaration>
      requires Checked() && n <= Steps()
    {
      if n == 0 then [] else PeakRows(n - 1) + [AtMost([(At(n - 1), 1.0), (PeakAt(), -1.0)], 0.0)]
    }

    function PeakCalls(): seq<Declaration>
      requires Checked()
    {
      if demand.None? then []
      else [Variable(Some(PeakFloor()), PeakLimit()), Linear(PeakAt(), demand.value.eurPerKw)] + PeakRows(Steps())
    }

    function PricesSum(n: nat): real
      requires Checked() && n <= Steps()
    {
      if n == 0 then 0.0 else PricesSum(n - 1) + PriceIn(n - 1)
    }

    function TerminalCalls(): seq<Declaration>
      requires Checked()
    {
      if battery.None? then []
      else
        [Linear(At(Steps() - 1) + 5, -LeftEur(PricesSum(Steps()), battery.value))]
    }

    // The value of energy left in the battery.
    function LeftEur(prices: real, b: Battery): real
      requires Steps() > 0
    {
      w.terminal.UnwrapOr(0.9 * (prices / Steps() as real) * b.etaCharge * b.etaDischarge)
    }

    function Calls(): seq<Declaration>
      requires Checked()
    {
      FirstSteps(Steps()) + UnmetCalls(|evs|) + PeakCalls() + TerminalCalls()
    }
  }
}
