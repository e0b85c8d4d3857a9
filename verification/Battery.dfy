// The battery plan (crates/control/src/controller.rs:739-827).
module Batteries {
  import opened Basics
  import opened Sums
  import opened Sites

  // What the plan is made from. constrained: dimmed or releasing; allowedExportKw: None without a feed-in limit.
  datatype Balance = Balance(
    gridKw: Option<real>, batteryNowKw: real, constrained: bool, floorKw: real, baseKw: Option<real>,
    pvKw: Option<real>, loadsKw: real, allowedExportKw: Option<real>, availableKw: Option<real>,
    importTargetKw: real, targetKw: Option<real>, dimExpected: bool)
  {
    // The PV the sun allows where it is known, else what is measured.
    function PvRef(): Option<real> {
      if availableKw.Some? then availableKw else pvKw
    }

    // The import with the batteries idle and PV unconstrained.
    function Unconstrained(): Option<real> {
      if baseKw.Some? && availableKw.Some? then Some(baseKw.value + loadsKw - availableKw.value) else None
    }

    // The PV left over by base load and loads.
    function SurplusKw(): real {
      if baseKw.Some? && PvRef().Some? then Max(PvRef().value - baseKw.value - loadsKw, 0.0) else 0.0
    }

    // The PV left over that is measured, not only allowed by the sun.
    function LeftKw(): real {
      if baseKw.Some? && pvKw.Some? then Max(pvKw.value - baseKw.value - loadsKw, 0.0) else 0.0
    }

    predicate Guided() {
      targetKw.Some? && (!constrained || dimExpected)
    }

    // What the plan asks for, more where a feed-in limit would curtail it, and no discharge into what it cannot see.
    function PlannedKw(gridIdle: real): real
      requires Guided()
    {
      var w := targetKw.value - gridIdle;
      var stored := if Unconstrained().Some? && allowedExportKw.Some?
                    then Max(w, -Unconstrained().value - allowedExportKw.value) else w;
      if allowedExportKw.Some? && Unconstrained().None? then Max(stored, 0.0) else stored
    }

    function GuidedKw(gridIdle: real): real
      requires Guided()
    {
      if constrained then Min(PlannedKw(gridIdle), SurplusKw()) else PlannedKw(gridIdle)
    }

    function RuledKw(gridIdle: real): real {
      if constrained then
        var baseMinusPv := if baseKw.Some? && PvRef().Some? then baseKw.value - PvRef().value else 0.0;
        -Max(baseMinusPv + floorKw, 0.0)
      else
        var net := Unconstrained().UnwrapOr(gridIdle);
        if net < 0.0 then -net
        else if allowedExportKw.Some? && Unconstrained().None? then 0.0
        else -Max(net - importTargetKw, 0.0)
    }

    // The power wanted of all batteries, + charging; None when blind.
    function WantKw(): Option<real> {
      if gridKw.None? then None
      else
        var gridIdle := gridKw.value - batteryNowKw;
        Some(if Guided() then GuidedKw(gridIdle) else RuledKw(gridIdle))
    }
  }

  // The most a battery charges and discharges, tapering near its limits.
  function MostCharge(b: Battery, soc: real): real {
    Min(b.maxChargeKw, Max(b.maxSocPct - soc, 0.0) / 100.0 * b.capacityKwh * 4.0)
  }

  function MostDischarge(b: Battery, soc: real): real {
    Min(b.maxDischargeKw, Max(soc - b.minSocPct, 0.0) / 100.0 * b.capacityKwh * 4.0)
  }

  // The powers a battery may get; none when it is offline.
  datatype Range = Range(least: real, most: real)

  function RangeOf(b: Battery, r: seq<BatteryReading>, i: nat): Range {
    if i < |r| && r[i].online then Range(-MostDischarge(b, r[i].socPct), MostCharge(b, r[i].socPct))
    else Range(0.0, 0.0)
  }

  function Ranges(specs: seq<Battery>, r: seq<BatteryReading>): seq<Range> {
    seq(|specs|, i requires 0 <= i < |specs| => RangeOf(specs[i], r, i))
  }

  // What the first n batteries take, each from what the ones before left.
  function Shares(ranges: seq<Range>, want: real, n: nat): (p: seq<real>)
    requires n <= |ranges|
    ensures |p| == n
  {
    if n == 0 then []
    else
      var before := Shares(ranges, want, n - 1);
      before + [Clamp(want - Sum(before), ranges[n - 1].least, ranges[n - 1].most)]
  }

  function Setpoints(site: Site, r: seq<BatteryReading>, balance: Balance): (p: seq<real>)
    ensures |p| == |site.batteries|
  {
    match balance.WantKw()
    case None => seq(|site.batteries|, i => 0.0)
    case Some(want) => Shares(Ranges(site.batteries, r), want, |site.batteries|)
  }

  lemma SharesNext(ranges: seq<Range>, want: real, i: nat, range: Range, left: real, share: real)
    requires i < |ranges| && range == ranges[i]
    requires left == want - Sum(Shares(ranges, want, i)) && share == Clamp(left, range.least, range.most)
    ensures Shares(ranges, want, i + 1) == Shares(ranges, want, i) + [share]
    ensures left - share == want - Sum(Shares(ranges, want, i + 1))
  {
    assert (Shares(ranges, want, i) + [share])[..i] == Shares(ranges, want, i);
  }

  method PlanBatteries(site: Site, r: seq<BatteryReading>, balance: Balance) returns (p: seq<real>)
    ensures p == Setpoints(site, r, balance)
  {
    if balance.gridKw.None? {
      p := seq(|site.batteries|, i => 0.0);
      return;
    }
    var want := balance.WantKw().value;
    ghost var ranges := Ranges(site.batteries, r);
    p := [];
    for i := 0 to |site.batteries|
      invariant p == Shares(ranges, balance.WantKw().value, i)
      invariant want == balance.WantKw().value - Sum(p)
    {
      var range := RangeOf(site.batteries[i], r, i);
      var share := Clamp(want, range.least, range.most);
      SharesNext(ranges, balance.WantKw().value, i, range, want, share);
      want := want - share;
      p := p + [share];
    }
  }

  // ---------------------------------------------------------------- what the plan promises

  // Not beyond what is wanted, and not against it.
  ghost predicate Towards(p: real, want: real) {
    if want >= 0.0 then 0.0 <= p <= want else want <= p <= 0.0
  }

  lemma MostIsNotNegative(b: Battery, soc: real)
    requires b.Valid()
    ensures MostCharge(b, soc) >= 0.0 && MostDischarge(b, soc) >= 0.0
  {
    NotNegative(Max(b.maxSocPct - soc, 0.0) / 100.0, b.capacityKwh);
    NotNegative(Max(soc - b.minSocPct, 0.0) / 100.0, b.capacityKwh);
  }

  lemma NotNegative(a: real, b: real)
    requires a >= 0.0 && b >= 0.0
    ensures a * b >= 0.0
  {
  }

  lemma RangesHoldZero(specs: seq<Battery>, r: seq<BatteryReading>, i: nat)
    requires i < |specs| && specs[i].Valid()
    ensures Ranges(specs, r)[i].least <= 0.0 <= Ranges(specs, r)[i].most
  {
    if i < |r| {
      MostIsNotNegative(specs[i], r[i].socPct);
    }
  }

  lemma ClampIsTowards(rest: real, least: real, most: real)
    requires least <= 0.0 <= most
    ensures var c := Clamp(rest, least, most);
      Towards(c, rest) && least <= c <= most && (c == rest || c == if rest >= 0.0 then most else least)
  {
  }

  ghost predicate HoldZero(ranges: seq<Range>) {
    forall i :: 0 <= i < |ranges| ==> ranges[i].least <= 0.0 <= ranges[i].most
  }

  // The setpoints all have the sign of the power wanted and never add up beyond it.
  lemma {:induction false} SharesAreTowards(ranges: seq<Range>, want: real, n: nat)
    requires n <= |ranges| && HoldZero(ranges)
    ensures var p := Shares(ranges, want, n);
      Towards(Sum(p), want) && forall i :: 0 <= i < n ==> if want >= 0.0 then p[i] >= 0.0 else p[i] <= 0.0
  {
    if n > 0 {
      var before := Shares(ranges, want, n - 1);
      SharesAreTowards(ranges, want, n - 1);
      ClampIsTowards(want - Sum(before), ranges[n - 1].least, ranges[n - 1].most);
      assert Shares(ranges, want, n)[..n - 1] == before;
    }
  }

  // Each battery keeps to its range, and where not all is given that is wanted, each gives all it can.
  lemma {:induction false} SharesAreAllTheyCan(ranges: seq<Range>, want: real, n: nat, i: nat)
    requires i < n <= |ranges| && HoldZero(ranges)
    ensures var p := Shares(ranges, want, n);
      && ranges[i].least <= p[i] <= ranges[i].most
      && (Sum(p) == want || p[i] == if want >= 0.0 then ranges[i].most else ranges[i].least)
  {
    var before := Shares(ranges, want, n - 1);
    SharesAreTowards(ranges, want, n - 1);
    ClampIsTowards(want - Sum(before), ranges[n - 1].least, ranges[n - 1].most);
    assert Shares(ranges, want, n)[..n - 1] == before;
    if i < n - 1 {
      SharesAreAllTheyCan(ranges, want, n - 1, i);
    }
  }

  // The state of charge after h hours at a power, without losses.
  function SocAfter(b: Battery, soc: real, kw: real, h: real): real
    requires b.capacityKwh > 0.0
  {
    soc + kw * h / b.capacityKwh * 100.0
  }

  // A quarter of an hour at most takes a quarter of four times the room.
  lemma EnergyFits(kw: real, h: real, room: real, capacity: real)
    requires 0.0 <= h <= 0.25 && capacity > 0.0 && room >= 0.0
    requires 0.0 <= kw <= room / 100.0 * capacity * 4.0
    ensures 0.0 <= kw * h / capacity * 100.0 <= room
  {
    Scale(kw, h);
    Cancel(kw * h, room / 100.0, capacity);
  }

  lemma Scale(kw: real, h: real)
    requires 0.0 <= h <= 0.25 && kw >= 0.0
    ensures 0.0 <= kw * h <= kw / 4.0
  {
  }

  lemma Cancel(energy: real, room: real, capacity: real)
    requires 0.0 <= energy <= room * capacity && capacity > 0.0
    ensures 0.0 <= energy / capacity <= room
  {
    Quotient(room, capacity);
    Divide(0.0, energy, capacity);
    Divide(energy, room * capacity, capacity);
  }

  lemma Quotient(a: real, b: real)
    requires b > 0.0
    ensures a * b / b == a
  {
  }

  lemma Negated(kw: real, h: real, capacity: real)
    requires capacity > 0.0
    ensures (-kw) * h / capacity * 100.0 == -(kw * h / capacity * 100.0)
  {
  }

  lemma ChargingStays(b: Battery, soc: real, kw: real, h: real, room: real)
    requires b.capacityKwh > 0.0 && 0.0 <= h <= 0.25 && room == Max(b.maxSocPct - soc, 0.0)
    requires 0.0 <= kw <= room / 100.0 * b.capacityKwh * 4.0
    ensures soc <= SocAfter(b, soc, kw, h) <= Max(b.maxSocPct, soc)
  {
    EnergyFits(kw, h, room, b.capacityKwh);
  }

  lemma DischargingStays(b: Battery, soc: real, kw: real, h: real, room: real)
    requires b.capacityKwh > 0.0 && 0.0 <= h <= 0.25 && room == Max(soc - b.minSocPct, 0.0)
    requires 0.0 <= -kw <= room / 100.0 * b.capacityKwh * 4.0
    ensures Min(b.minSocPct, soc) <= SocAfter(b, soc, kw, h) <= soc
  {
    EnergyFits(-kw, h, room, b.capacityKwh);
    Negated(kw, h, b.capacityKwh);
  }

  // A battery that gets a power it may get stays in its window for a quarter of an hour; one outside moves no
  // further away.
  lemma SocStaysInItsWindow(b: Battery, soc: real, kw: real, h: real)
    requires b.Valid() && 0.0 <= h <= 0.25 && -MostDischarge(b, soc) <= kw <= MostCharge(b, soc)
    ensures Min(b.minSocPct, soc) <= SocAfter(b, soc, kw, h) <= Max(b.maxSocPct, soc)
  {
    if kw >= 0.0 {
      ChargingStays(b, soc, kw, h, Max(b.maxSocPct - soc, 0.0));
    } else {
      DischargingStays(b, soc, kw, h, Max(soc - b.minSocPct, 0.0));
    }
  }

  lemma RangesAllHoldZero(site: Site, r: seq<BatteryReading>)
    requires site.Valid()
    ensures HoldZero(Ranges(site.batteries, r))
  {
    forall j | 0 <= j < |site.batteries|
      ensures Ranges(site.batteries, r)[j].least <= 0.0 <= Ranges(site.batteries, r)[j].most
    {
      RangesHoldZero(site.batteries, r, j);
    }
  }

  lemma SetpointIsInRange(site: Site, r: seq<BatteryReading>, balance: Balance, i: nat)
    requires site.Valid() && i < |site.batteries|
    ensures var range := RangeOf(site.batteries[i], r, i);
      range.least <= Setpoints(site, r, balance)[i] <= range.most
  {
    var ranges := Ranges(site.batteries, r);
    RangesAllHoldZero(site, r);
    assert ranges[i] == RangeOf(site.batteries[i], r, i);
    if balance.WantKw().Some? {
      SharesAreAllTheyCan(ranges, balance.WantKw().value, |ranges|, i);
    }
  }

  // Every setpoint keeps its battery in its state-of-charge window.
  lemma SetpointsKeepTheWindow(site: Site, r: seq<BatteryReading>, balance: Balance, i: nat, h: real)
    requires site.Valid() && i < |site.batteries| && i < |r| && 0.0 <= h <= 0.25
    ensures var b, soc := site.batteries[i], r[i].socPct;
      b.Valid() && Min(b.minSocPct, soc) <= SocAfter(b, soc, Setpoints(site, r, balance)[i], h) <= Max(b.maxSocPct, soc)
  {
    var b, soc := site.batteries[i], r[i].socPct;
    MostIsNotNegative(b, soc);
    SetpointIsInRange(site, r, balance, i);
    SocStaysInItsWindow(b, soc, Setpoints(site, r, balance)[i], h);
  }

  // ---------------------------------------------------------------- charging and discharging

  function Charging(p: seq<real>): seq<real> {
    seq(|p|, i requires 0 <= i < |p| => Max(p[i], 0.0))
  }

  function Discharging(p: seq<real>): seq<real> {
    seq(|p|, i requires 0 <= i < |p| => Max(-p[i], 0.0))
  }

  lemma {:induction false} SumNotNegative(s: seq<real>)
    requires forall i :: 0 <= i < |s| ==> s[i] >= 0.0
    ensures Sum(s) >= 0.0
    decreases |s|
  {
    if s != [] {
      SumNotNegative(s[..|s| - 1]);
    }
  }

  lemma {:induction false} AllCharge(p: seq<real>)
    requires forall i :: 0 <= i < |p| ==> p[i] >= 0.0
    ensures Sum(Charging(p)) == Sum(p) && Sum(Discharging(p)) == 0.0
    decreases |p|
  {
    if p != [] {
      var init := p[..|p| - 1];
      AllCharge(init);
      assert Charging(p)[..|init|] == Charging(init) && Discharging(p)[..|init|] == Discharging(init);
    }
  }

  lemma {:induction false} AllDischarge(p: seq<real>)
    requires forall i :: 0 <= i < |p| ==> p[i] <= 0.0
    ensures Sum(Charging(p)) == 0.0 && Sum(Discharging(p)) == -Sum(p)
    decreases |p|
  {
    if p != [] {
      var init := p[..|p| - 1];
      AllDischarge(init);
      assert Charging(p)[..|init|] == Charging(init) && Discharging(p)[..|init|] == Discharging(init);
    }
  }

  lemma ConstrainedWant(balance: Balance)
    requires balance.constrained && balance.WantKw().Some?
    ensures balance.WantKw().value <= balance.SurplusKw()
  {
  }

  // While dimmed or releasing all charging together stays within the PV that base load and loads would leave over if
  // nothing were curtailed, whatever the guidance says.
  lemma ConstrainedChargesFromSurplus(site: Site, r: seq<BatteryReading>, balance: Balance)
    requires site.Valid() && balance.constrained
    ensures Sum(Charging(Setpoints(site, r, balance))) <= balance.SurplusKw()
  {
    SetpointsHaveOneSign(site, r, balance);
    if balance.WantKw().Some? {
      ConstrainedWant(balance);
    }
  }

  lemma SetpointsHaveOneSign(site: Site, r: seq<BatteryReading>, balance: Balance)
    requires site.Valid()
    ensures var p, want := Setpoints(site, r, balance), balance.WantKw().UnwrapOr(0.0);
      && Towards(Sum(p), want)
      && Sum(Charging(p)) == (if want >= 0.0 then Sum(p) else 0.0) >= 0.0
      && Sum(Discharging(p)) == (if want >= 0.0 then 0.0 else -Sum(p)) >= 0.0
  {
    var ranges := Ranges(site.batteries, r);
    var p, want := Setpoints(site, r, balance), balance.WantKw().UnwrapOr(0.0);
    RangesAllHoldZero(site, r);
    if balance.WantKw().Some? {
      SharesAreTowards(ranges, want, |ranges|);
    } else {
      SumZeros(p);
    }
    if want >= 0.0 {
      AllCharge(p);
    } else {
      AllDischarge(p);
    }
  }

  // ---------------------------------------------------------------- charging from the grid

  // What the first n batteries can charge at most.
  function MostKw(ranges: seq<Range>, n: nat): real
    requires n <= |ranges|
  {
    if n == 0 then 0.0 else MostKw(ranges, n - 1) + ranges[n - 1].most
  }

  function RoomKw(site: Site, r: seq<BatteryReading>): real {
    MostKw(Ranges(site.batteries, r), |site.batteries|)
  }

  // The batteries take what is wanted, or all they can.
  lemma {:induction false} SharesFillUp(ranges: seq<Range>, want: real, n: nat)
    requires n <= |ranges| && HoldZero(ranges) && want >= 0.0
    ensures Sum(Shares(ranges, want, n)) == Min(want, MostKw(ranges, n)) && MostKw(ranges, n) >= 0.0
  {
    if n > 0 {
      SharesFillUp(ranges, want, n - 1);
      assert Shares(ranges, want, n)[..n - 1] == Shares(ranges, want, n - 1);
    }
  }

  lemma ChargingIs(site: Site, r: seq<BatteryReading>, balance: Balance)
    requires site.Valid()
    ensures Sum(Charging(Setpoints(site, r, balance)))
            == Max(Min(balance.WantKw().UnwrapOr(0.0), RoomKw(site, r)), 0.0)
    ensures RoomKw(site, r) >= 0.0
  {
    var want := balance.WantKw().UnwrapOr(0.0);
    RangesAllHoldZero(site, r);
    SetpointsHaveOneSign(site, r, balance);
    SharesFillUp(Ranges(site.batteries, r), Max(want, 0.0), |site.batteries|);
    if balance.WantKw().None? {
      SumZeros(Setpoints(site, r, balance));
    }
  }

  // Charging while dimmed or releasing comes out of the PV left over that is measured, unless all of this comes
  // together: a plan is followed, it wants more, the sun would allow more, and the batteries have room for more.
  predicate ChargesFromGrid(site: Site, r: seq<BatteryReading>, balance: Balance) {
    && balance.gridKw.Some? && balance.Guided()
    && balance.PlannedKw(balance.gridKw.value - balance.batteryNowKw) > balance.LeftKw()
    && balance.SurplusKw() > balance.LeftKw() && RoomKw(site, r) > balance.LeftKw()
  }

  lemma ChargesFromMeasuredPvExactly(site: Site, r: seq<BatteryReading>, balance: Balance)
    requires site.Valid() && balance.constrained
    ensures Sum(Charging(Setpoints(site, r, balance))) <= balance.LeftKw() <==> !ChargesFromGrid(site, r, balance)
    ensures balance.availableKw.None? ==> !ChargesFromGrid(site, r, balance)
  {
    ChargingIs(site, r, balance);
  }

  // No plan at all makes the batteries charge from the grid exactly when the sun allows no more than is measured, or the
  // batteries have no room for more, or the meter is blind.
  lemma NoPlanChargesFromGridExactly(site: Site, r: seq<BatteryReading>, balance: Balance)
    requires site.Valid() && balance.constrained
    ensures (forall target: real ::
               !ChargesFromGrid(site, r, balance.(targetKw := Some(target), dimExpected := true)))
            <==> balance.gridKw.None? || balance.SurplusKw() <= balance.LeftKw()
                 || RoomKw(site, r) <= balance.LeftKw()
  {
    if balance.gridKw.Some? {
      var gridIdle := balance.gridKw.value - balance.batteryNowKw;
      var greedy := balance.(targetKw := Some(gridIdle + balance.LeftKw() + 1.0), dimExpected := true);
      assert greedy.LeftKw() == balance.LeftKw() && greedy.SurplusKw() == balance.SurplusKw();
      assert greedy.PlannedKw(gridIdle) >= balance.LeftKw() + 1.0;
      assert ChargesFromGrid(site, r, greedy)
        <==> balance.SurplusKw() > balance.LeftKw() && RoomKw(site, r) > balance.LeftKw();
    }
  }
}
