// Splitting the budget between heat pumps and chargers (crates/control/src/controller.rs:843-981).
module Allocation {
  import opened Basics
  import opened Sites
  import opened Ranking
  import opened WaterFill

  // What an allocation looks at.
  datatype Situation = Situation(site: Site, r: Readings, g: Option<Guidance>)
  {
    function PlannedKw(i: nat): Option<real> {
      if g.Some? && i < |g.value.chargerKw| then g.value.chargerKw[i] else None
    }

    function PlannedHeatKw(i: nat): Option<real> {
      if g.Some? && i < |g.value.heatPumpKw| then g.value.heatPumpKw[i] else None
    }

    // A valid site. A plan for a charger without a reading panics.
    predicate Sound() {
      site.Valid() && forall i :: 0 <= i < |site.chargers| && PlannedKw(i).Some? ==> i < |r.chargers|
    }

    // Slack before departure: time left minus time to charge at full power.
    function Laxity(i: nat): Option<real>
      requires i < |site.chargers| && i < |r.chargers|
    {
      var c := r.chargers[i];
      var maxA := match c.carMaxA case None => site.chargers[i].maxA case Some(a) => Min(a, site.chargers[i].maxA);
      if c.departureS.Some? && c.remainingKwh.Some? && maxA > 0.0 then
        Some(c.departureS.value - c.remainingKwh.value / KwOf(maxA) * 3600.0)
      else None
    }

    predicate Urgent(i: nat)
      requires i < |site.chargers| && i < |r.chargers|
    {
      Laxity(i).Some? && Laxity(i).value <= site.deadlineGuardS
    }

    // What the plan wants, as a current: nothing below half the minimum, else rounded into the charger's range.
    function PlannedA(kw: real, i: nat): real
      requires i < |site.chargers|
    {
      if kw < KwOf(EV_MIN_A) / 2.0 then 0.0
      else Clamp((CurrentOf(kw) + 0.5).Floor as real, EV_MIN_A, site.chargers[i].maxA)
    }

    function CapA(i: nat): real
      requires Sound() && i < |site.chargers|
    {
      if PlannedKw(i).None? || Urgent(i) then site.chargers[i].maxA else PlannedA(PlannedKw(i).value, i)
    }

    function HeatDemandKw(i: nat): real
      requires i < |site.heatPumps|
    {
      if i < |r.heatPumps| && r.heatPumps[i].online then
        Min(PlannedHeatKw(i).UnwrapOr(r.heatPumps[i].demandKw), site.heatPumps[i].ratedKw)
      else 0.0
    }

    predicate Waits(i: nat)
      requires Sound() && i < |site.chargers|
    {
      i < |r.chargers| && r.chargers[i].online && r.chargers[i].carWaiting && CapA(i) > 0.0
    }

    // The waiting cars among the first n chargers.
    function Waiting(n: nat): seq<nat>
      requires Sound() && n <= |site.chargers|
    {
      if n == 0 then [] else Waiting(n - 1) + (if Waits(n - 1) then [n - 1] else [])
    }

    // The waiting cars that may be limited.
    function Limited(n: nat): seq<nat>
      requires Sound() && n <= |site.chargers|
    {
      if n == 0 then []
      else Limited(n - 1) + (if Waits(n - 1) && !site.ExemptCharger(n - 1) then [n - 1] else [])
    }

    // ---- what the devices that opted out draw

    function ExemptHeatKw(n: nat): real
      requires n <= |site.heatPumps|
    {
      if n == 0 then 0.0
      else ExemptHeatKw(n - 1) + (if site.ExemptHeatPump(n - 1) then HeatDemandKw(n - 1) else 0.0)
    }

    function ExemptCarsKw(n: nat): real
      requires Sound() && n <= |site.chargers|
    {
      if n == 0 then 0.0
      else
        ExemptCarsKw(n - 1)
        + (if Waits(n - 1) && site.ExemptCharger(n - 1) then r.chargers[n - 1].powerKw else 0.0)
    }

    function ExemptKw(): real
      requires Sound()
    {
      ExemptHeatKw(|site.heatPumps|) + ExemptCarsKw(|site.chargers|)
    }

    // What there is to share.
    function ShareableKw(budgetKw: real): real
      requires Sound()
    {
      Max(Max(budgetKw, 0.0) - ExemptKw(), 0.0)
    }

    function HeatDemandsKw(): seq<real> {
      seq(|site.heatPumps|, i requires 0 <= i < |site.heatPumps| => HeatDemandKw(i))
    }

    // ---- chargers

    // Cars inside their dwell time keep their state first; then least laxity, then least energy.
    function KeyOf(i: nat, m: Memory, t: real): Key
      requires Sound() && Remembers(m) && i < |site.chargers|
    {
      var locked := m.switchedAt[i].Some? && t - m.switchedAt[i].value < site.minDwellS;
      if i < |r.chargers| then
        Key(if !locked then 1 else if m.on[i] then 0 else 2, Laxity(i), r.chargers[i].sessionKwh)
      else Key(3, None, 0.0)
    }

    function Keys(m: Memory, t: real): seq<Key>
      requires Sound() && Remembers(m)
    {
      seq(|site.chargers|, i requires 0 <= i < |site.chargers| => KeyOf(i, m, t))
    }

    predicate Remembers(m: Memory) {
      |m.on| == |m.switchedAt| == |site.chargers|
    }

    // As many of the best ranked as the minimum fits for.
    function Active(m: Memory, t: real, left: real): (active: seq<nat>)
      requires Sound() && Remembers(m)
      ensures Numbers(active, |site.chargers|)
    {
      var order := Order(m, t);
      var fit := (left / KwOf(EV_MIN_A)).Floor;
      order[..if fit < 0 then 0 else if fit < |order| then fit else |order|]
    }

    function Order(m: Memory, t: real): (order: seq<nat>)
      requires Sound() && Remembers(m)
      ensures Numbers(order, |site.chargers|)
    {
      LimitedIs(|site.chargers|);
      Sort(Limited(|site.chargers|), Keys(m, t))
    }

    lemma {:induction false} LimitedIs(n: nat)
      requires Sound() && n <= |site.chargers|
      ensures Ascending(Limited(n)) && Numbers(Limited(n), n)
      ensures forall i: nat :: i in Limited(n) <==> i < n && Waits(i) && !site.ExemptCharger(i)
    {
      if n > 0 {
        LimitedIs(n - 1);
      }
    }

    function Caps(active: seq<nat>): seq<real>
      requires Sound() && Numbers(active, |site.chargers|)
    {
      seq(|active|, p requires 0 <= p < |active| => CapA(active[p]))
    }

    // Chargers that may be limited are off, the others at their cap.
    function Off(): seq<real>
      requires Sound()
    {
      seq(|site.chargers|, i requires 0 <= i < |site.chargers| => if site.ExemptCharger(i) then CapA(i) else 0.0)
    }

    function Unlimited(): seq<real>
      requires Sound()
    {
      seq(|site.chargers|, i requires 0 <= i < |site.chargers| => CapA(i))
    }
  }

  datatype Grant = Grant(hp: seq<real>, left: real)

  // What is remembered of each charger: on or off, and since when (None: since ever).
  datatype Memory = Memory(on: seq<bool>, switchedAt: seq<Option<real>>)

  // ---------------------------------------------------------------- heat pumps

  function FirstShareKw(spec: HeatPump, demand: real, left: real): real {
    var share := Min(Min(demand, 0.4 * spec.ratedKw), left);
    if share < spec.minKw then 0.0 else share
  }

  function ExtraKw(spec: HeatPump, demand: real, given: real, left: real): real {
    var extra := Min(Max(demand - given, 0.0), left);
    if given + extra >= spec.minKw then extra else 0.0
  }

  // Each heat pump first gets up to 40 % of its rating.
  function Guaranteed(site: Site, demand: seq<real>, n: nat, left: real): (g: Grant)
    requires n <= |site.heatPumps| == |demand|
    ensures |g.hp| == n
  {
    if n == 0 then Grant([], left)
    else
      var before := Guaranteed(site, demand, n - 1, left);
      var spec := site.heatPumps[n - 1];
      if site.ExemptHeatPump(n - 1) then Grant(before.hp + [spec.ratedKw], before.left)
      else
        var give := FirstShareKw(spec, demand[n - 1], before.left);
        Grant(before.hp + [give], before.left - give)
  }

  // What is left tops the heat pumps up to their demand.
  function ToppedUp(site: Site, demand: seq<real>, n: nat, hp: seq<real>, left: real): (g: Grant)
    requires n <= |site.heatPumps| == |demand| == |hp|
    ensures |g.hp| == n
  {
    if n == 0 then Grant([], left)
    else
      var before := ToppedUp(site, demand, n - 1, hp, left);
      if site.ExemptHeatPump(n - 1) then Grant(before.hp + [hp[n - 1]], before.left)
      else
        var extra := ExtraKw(site.heatPumps[n - 1], demand[n - 1], hp[n - 1], before.left);
        Grant(before.hp + [hp[n - 1] + extra], before.left - extra)
  }

  // The amps of the active cars written into the currents.
  function Written(currents: seq<real>, active: seq<nat>, amps: Amps, n: nat): (r: seq<real>)
    requires n <= |active| == |amps| && Numbers(active, |currents|)
    ensures |r| == |currents|
  {
    if n == 0 then currents
    else Written(currents, active, amps, n - 1)[active[n - 1] := amps[n - 1] as real]
  }

  function SetOn(m: Memory, i: nat, on: bool, t: real): (r: Memory)
    requires i < |m.on| == |m.switchedAt|
    ensures |r.on| == |r.switchedAt| == |m.on|
  {
    if m.on[i] == on then m else Memory(m.on[i := on], m.switchedAt[i := Some(t)])
  }

  function Switched(m: Memory, charging: seq<bool>, t: real, n: nat): (r: Memory)
    requires n <= |charging| == |m.on| == |m.switchedAt|
    ensures |r.on| == |r.switchedAt| == |m.on|
  {
    if n == 0 then m else SetOn(Switched(m, charging, t, n - 1), n - 1, charging[n - 1], t)
  }

  // The guaranteed shares, the cars that then charge, and the topping up.
  function FirstGrant(s: Situation, budgetKw: real): Grant
    requires s.Sound()
  {
    Guaranteed(s.site, s.HeatDemandsKw(), |s.site.heatPumps|, s.ShareableKw(budgetKw))
  }

  function Charging(s: Situation, m: Memory, t: real, budgetKw: real): (active: seq<nat>)
    requires s.Sound() && s.Remembers(m)
    ensures Numbers(active, |s.site.chargers|)
  {
    s.Active(m, t, FirstGrant(s, budgetKw).left)
  }

  // Their minimums.
  function MinimumsKw(s: Situation, m: Memory, t: real, budgetKw: real): real
    requires s.Sound() && s.Remembers(m)
  {
    |Charging(s, m, t, budgetKw)| as real * KwOf(EV_MIN_A)
  }

  function TopUp(s: Situation, first: Grant, takenKw: real): Grant
    requires |first.hp| == |s.site.heatPumps|
  {
    ToppedUp(s.site, s.HeatDemandsKw(), |s.site.heatPumps|, first.hp, first.left - takenKw)
  }

  function LastGrant(s: Situation, m: Memory, t: real, budgetKw: real): Grant
    requires s.Sound() && s.Remembers(m)
  {
    var first := FirstGrant(s, budgetKw);
    TopUp(s, first, MinimumsKw(s, m, t, budgetKw))
  }

  // A limited allocation, step by step; the water-fill by what it promises.
  ghost predicate Allocated(s: Situation, m: Memory, t: real, budgetKw: real, currents: seq<real>, hp: seq<real>,
                            amps: Amps, spare: real)
    requires s.Sound() && s.Remembers(m)
  {
    var active, last := Charging(s, m, t, budgetKw), LastGrant(s, m, t, budgetKw);
    && hp == last.hp
    && Filled(s.Caps(active), CurrentOf(Max(last.left, 0.0)), amps, spare)
    && currents == Written(s.Off(), active, amps, |active|)
  }

  // ---------------------------------------------------------------- what is granted

  // Power granted to the heat pumps that may be limited.
  function GrantedHeatKw(site: Site, hp: seq<real>): real
    requires |hp| <= |site.heatPumps|
  {
    if hp == [] then 0.0
    else
      GrantedHeatKw(site, hp[..|hp| - 1]) + (if site.ExemptHeatPump(|hp| - 1) then 0.0 else hp[|hp| - 1])
  }

  // Power granted to the chargers that may be limited.
  function GrantedCarsKw(site: Site, currents: seq<real>): real
    requires |currents| <= |site.chargers|
  {
    if currents == [] then 0.0
    else
      var n := |currents| - 1;
      GrantedCarsKw(site, currents[..n]) + (if site.ExemptCharger(n) then 0.0 else KwOf(currents[n]))
  }

  // Off, or between the least and the rated power and not above the demand.
  ghost predicate InRange(spec: HeatPump, demand: real, kw: real) {
    kw == 0.0 || (spec.minKw <= kw <= spec.ratedKw && 0.0 <= kw <= demand)
  }

  ghost predicate HeatPossible(site: Site, demand: seq<real>, hp: seq<real>)
    requires |hp| <= |site.heatPumps| == |demand|
  {
    forall i :: 0 <= i < |hp| ==>
      if site.ExemptHeatPump(i) then hp[i] == site.heatPumps[i].ratedKw
      else InRange(site.heatPumps[i], demand[i], hp[i])
  }

  lemma FirstShareIs(spec: HeatPump, demand: real, left: real)
    requires spec.Valid() && left >= 0.0
    ensures InRange(spec, demand, FirstShareKw(spec, demand, left))
    ensures 0.0 <= FirstShareKw(spec, demand, left) <= left
  {
  }

  lemma ExtraIs(spec: HeatPump, demand: real, given: real, left: real)
    requires spec.Valid() && left >= 0.0 && InRange(spec, demand, given) && demand <= spec.ratedKw
    ensures InRange(spec, demand, given + ExtraKw(spec, demand, given, left))
    ensures 0.0 <= ExtraKw(spec, demand, given, left) <= left
  {
  }

  lemma GrantedSnoc(site: Site, hp: seq<real>, kw: real)
    requires |hp| < |site.heatPumps|
    ensures GrantedHeatKw(site, hp + [kw]) == GrantedHeatKw(site, hp) + (if site.ExemptHeatPump(|hp|) then 0.0 else kw)
  {
    assert (hp + [kw])[..|hp|] == hp;
  }

  // The demands a heat pump may be asked for.
  ghost predicate Sane(site: Site, demand: seq<real>) {
    |site.heatPumps| == |demand|
    && forall i :: 0 <= i < |demand| ==> site.heatPumps[i].Valid() && demand[i] <= site.heatPumps[i].ratedKw
  }

  // What the heat pumps get and what is left add up.
  lemma {:induction false} GuaranteedConserves(site: Site, demand: seq<real>, n: nat, left: real)
    requires n <= |site.heatPumps| == |demand|
    ensures var g := Guaranteed(site, demand, n, left); GrantedHeatKw(site, g.hp) + g.left == left
  {
    if n > 0 {
      GuaranteedConserves(site, demand, n - 1, left);
      var before := Guaranteed(site, demand, n - 1, left);
      var g := Guaranteed(site, demand, n, left);
      assert g.hp == before.hp + [g.hp[n - 1]];
      GrantedSnoc(site, before.hp, g.hp[n - 1]);
    }
  }

  lemma {:induction false} ToppedUpConserves(site: Site, demand: seq<real>, n: nat, hp: seq<real>, left: real)
    requires n <= |site.heatPumps| == |demand| == |hp|
    ensures var g := ToppedUp(site, demand, n, hp, left);
      GrantedHeatKw(site, g.hp) + g.left == GrantedHeatKw(site, hp[..n]) + left
  {
    if n > 0 {
      ToppedUpConserves(site, demand, n - 1, hp, left);
      var before := ToppedUp(site, demand, n - 1, hp, left);
      var g := ToppedUp(site, demand, n, hp, left);
      assert g.hp == before.hp + [g.hp[n - 1]];
      GrantedSnoc(site, before.hp, g.hp[n - 1]);
      assert hp[..n] == hp[..n - 1] + [hp[n - 1]];
      GrantedSnoc(site, hp[..n - 1], hp[n - 1]);
    }
  }

  // Neither takes more than there is, or asks of a heat pump what it cannot do.
  lemma {:induction false} GuaranteedIsPossible(site: Site, demand: seq<real>, n: nat, left: real)
    requires Sane(site, demand) && n <= |demand| && left >= 0.0
    ensures var g := Guaranteed(site, demand, n, left); g.left >= 0.0 && HeatPossible(site, demand, g.hp)
  {
    if n > 0 {
      GuaranteedIsPossible(site, demand, n - 1, left);
      FirstShareIs(site.heatPumps[n - 1], demand[n - 1], Guaranteed(site, demand, n - 1, left).left);
    }
  }

  lemma {:induction false} ToppedUpIsPossible(site: Site, demand: seq<real>, n: nat, hp: seq<real>, left: real)
    requires Sane(site, demand) && n <= |demand| == |hp| && left >= 0.0 && HeatPossible(site, demand, hp)
    ensures var g := ToppedUp(site, demand, n, hp, left); g.left >= 0.0 && HeatPossible(site, demand, g.hp)
  {
    if n > 0 {
      ToppedUpIsPossible(site, demand, n - 1, hp, left);
      if !site.ExemptHeatPump(n - 1) {
        ExtraIs(site.heatPumps[n - 1], demand[n - 1], hp[n - 1], ToppedUp(site, demand, n - 1, hp, left).left);
      }
    }
  }

  lemma {:induction false} CarsRaised(site: Site, currents: seq<real>, i: nat, a: real)
    requires i < |currents| <= |site.chargers| && !site.ExemptCharger(i) && currents[i] == 0.0
    ensures GrantedCarsKw(site, currents[i := a]) == GrantedCarsKw(site, currents) + KwOf(a)
    decreases |currents|
  {
    var n := |currents| - 1;
    if i == n {
      assert currents[i := a][..n] == currents[..n];
    } else {
      assert currents[i := a][..n] == currents[..n][i := a];
      CarsRaised(site, currents[..n], i, a);
    }
  }

  lemma {:induction false} OffGrantsNothing(s: Situation, n: nat)
    requires s.Sound() && n <= |s.site.chargers|
    ensures GrantedCarsKw(s.site, s.Off()[..n]) == 0.0
  {
    if n > 0 {
      OffGrantsNothing(s, n - 1);
      assert s.Off()[..n][..n - 1] == s.Off()[..n - 1];
    }
  }

  lemma {:induction false} WrittenAt(currents: seq<real>, active: seq<nat>, amps: Amps, n: nat)
    requires n <= |active| == |amps| && Numbers(active, |currents|)
    requires forall p, q :: 0 <= p < q < |active| ==> active[p] != active[q]
    ensures forall p :: 0 <= p < n ==> Written(currents, active, amps, n)[active[p]] == amps[p] as real
    ensures forall i :: 0 <= i < |currents| && i !in active[..n] ==> Written(currents, active, amps, n)[i] == currents[i]
  {
    if n > 0 {
      WrittenAt(currents, active, amps, n - 1);
      var before, i := Written(currents, active, amps, n - 1), active[n - 1];
      assert active[..n] == active[..n - 1] + [i];
      forall p | 0 <= p < n
        ensures before[i := amps[n - 1] as real][active[p]] == amps[p] as real
      {
        assert p < n - 1 ==> active[p] != i;
      }
    }
  }

  lemma {:induction false} WrittenGrants(site: Site, currents: seq<real>, active: seq<nat>, amps: Amps, n: nat)
    requires n <= |active| == |amps| && Numbers(active, |currents|) && |currents| == |site.chargers|
    requires forall p, q :: 0 <= p < q < |active| ==> active[p] != active[q]
    requires forall p :: 0 <= p < |active| ==> !site.ExemptCharger(active[p]) && currents[active[p]] == 0.0
    ensures GrantedCarsKw(site, Written(currents, active, amps, n))
            == GrantedCarsKw(site, currents) + KwOf(Total(amps[..n]) as real)
  {
    if n > 0 {
      WrittenGrants(site, currents, active, amps, n - 1);
      WrittenAt(currents, active, amps, n - 1);
      assert active[n - 1] !in active[..n - 1];
      assert amps[..n][..n - 1] == amps[..n - 1];
      CarsRaised(site, Written(currents, active, amps, n - 1), active[n - 1], amps[n - 1] as real);
    }
  }

  lemma FitsBudget(left: real, n: int)
    requires left >= 0.0 && n <= (left / KwOf(EV_MIN_A)).Floor
    ensures n as real * KwOf(EV_MIN_A) <= left
  {
  }

  lemma OrderIs(s: Situation, m: Memory, t: real)
    requires s.Sound() && s.Remembers(m)
    ensures var order := s.Order(m, t);
      && (forall p, q :: 0 <= p < q < |order| ==> order[p] != order[q])
      && (forall p :: 0 <= p < |order| ==> s.Waits(order[p]) && !s.site.ExemptCharger(order[p]))
  {
    s.LimitedIs(|s.site.chargers|);
    SortRanks(s.Limited(|s.site.chargers|), s.Keys(m, t));
    var order := s.Order(m, t);
    RankedIsDistinct(order, s.Keys(m, t));
    forall p | 0 <= p < |order|
      ensures s.Waits(order[p]) && !s.site.ExemptCharger(order[p])
    {
      assert order[p] in order;
    }
  }

  lemma ActiveIs(s: Situation, m: Memory, t: real, left: real)
    requires s.Sound() && s.Remembers(m)
    ensures var active := s.Active(m, t, left);
      && (forall p, q :: 0 <= p < q < |active| ==> active[p] != active[q])
      && (forall p :: 0 <= p < |active| ==> s.Waits(active[p]) && !s.site.ExemptCharger(active[p]))
  {
    OrderIs(s, m, t);
  }

  lemma WaitingTakesTheMinimum(s: Situation, i: nat)
    requires s.Sound() && i < |s.site.chargers| && s.Waits(i)
    ensures EV_MIN_A <= s.CapA(i) <= s.site.chargers[i].maxA
  {
    assert s.site.chargers[i].Valid();
  }

  // ---------------------------------------------------------------- what an allocation promises

  lemma DemandsAreSane(s: Situation)
    requires s.site.Valid()
    ensures Sane(s.site, s.HeatDemandsKw())
  {
  }

  lemma FirstGrantIs(s: Situation, budgetKw: real)
    requires s.Sound()
    ensures var first := FirstGrant(s, budgetKw);
      && first.left >= 0.0 && HeatPossible(s.site, s.HeatDemandsKw(), first.hp)
      && GrantedHeatKw(s.site, first.hp) + first.left == s.ShareableKw(budgetKw)
  {
    DemandsAreSane(s);
    GuaranteedConserves(s.site, s.HeatDemandsKw(), |s.site.heatPumps|, s.ShareableKw(budgetKw));
    GuaranteedIsPossible(s.site, s.HeatDemandsKw(), |s.site.heatPumps|, s.ShareableKw(budgetKw));
  }

  lemma MinimumsFit(s: Situation, m: Memory, t: real, budgetKw: real)
    requires s.Sound() && s.Remembers(m)
    ensures MinimumsKw(s, m, t, budgetKw) <= FirstGrant(s, budgetKw).left
  {
    FirstGrantIs(s, budgetKw);
    FitsBudget(FirstGrant(s, budgetKw).left, |Charging(s, m, t, budgetKw)|);
  }

  lemma LastGrantIs(s: Situation, m: Memory, t: real, budgetKw: real)
    requires s.Sound() && s.Remembers(m)
    ensures var last := LastGrant(s, m, t, budgetKw);
      && last.left >= 0.0 && HeatPossible(s.site, s.HeatDemandsKw(), last.hp)
      && GrantedHeatKw(s.site, last.hp) + MinimumsKw(s, m, t, budgetKw) + last.left == s.ShareableKw(budgetKw)
  {
    FirstGrantIs(s, budgetKw);
    MinimumsFit(s, m, t, budgetKw);
    TopUpIs(s, FirstGrant(s, budgetKw), MinimumsKw(s, m, t, budgetKw));
  }

  lemma TopUpIs(s: Situation, first: Grant, taken: real)
    requires s.Sound() && |first.hp| == |s.site.heatPumps| && first.left >= taken
    requires HeatPossible(s.site, s.HeatDemandsKw(), first.hp)
    ensures var last := TopUp(s, first, taken);
      && last.left >= 0.0 && HeatPossible(s.site, s.HeatDemandsKw(), last.hp)
      && GrantedHeatKw(s.site, last.hp) + taken + last.left == GrantedHeatKw(s.site, first.hp) + first.left
  {
    DemandsAreSane(s);
    ToppedUpConserves(s.site, s.HeatDemandsKw(), |s.site.heatPumps|, first.hp, first.left - taken);
    ToppedUpIsPossible(s.site, s.HeatDemandsKw(), |s.site.heatPumps|, first.hp, first.left - taken);
    assert first.hp[..|s.site.heatPumps|] == first.hp;
  }

  // Not a watt more than there is to share is granted, and what is not granted is the spare current.
  lemma GrantsAddUp(s: Situation, m: Memory, t: real, budgetKw: real, currents: seq<real>, hp: seq<real>, amps: Amps,
                    spare: real)
    requires s.Sound() && s.Remembers(m) && Allocated(s, m, t, budgetKw, currents, hp, amps, spare)
    ensures |hp| == |s.site.heatPumps| && |currents| == |s.site.chargers| && spare >= 0.0
    ensures GrantedHeatKw(s.site, hp) + GrantedCarsKw(s.site, currents) + KwOf(spare) == s.ShareableKw(budgetKw)
  {
    var active := Charging(s, m, t, budgetKw);
    LastGrantIs(s, m, t, budgetKw);
    ActiveIs(s, m, t, FirstGrant(s, budgetKw).left);
    WrittenGrants(s.site, s.Off(), active, amps, |active|);
    OffGrantsNothing(s, |s.site.chargers|);
    assert s.Off()[..|s.site.chargers|] == s.Off() && amps[..|amps|] == amps;
    SharesAre(MIN_A, |active|);
  }

  // The power left over, from what is known before anything is shared.
  function UnusedKw(s: Situation, m: Memory, t: real, budgetKw: real): real
    requires s.Sound() && s.Remembers(m)
  {
    KwOf(UnusedA(s.Caps(Charging(s, m, t, budgetKw)), CurrentOf(Max(LastGrant(s, m, t, budgetKw).left, 0.0))))
  }

  // All that is granted together, from what is known before.
  lemma GrantsAre(s: Situation, m: Memory, t: real, budgetKw: real, currents: seq<real>, hp: seq<real>, amps: Amps,
                  spare: real)
    requires s.Sound() && s.Remembers(m) && Allocated(s, m, t, budgetKw, currents, hp, amps, spare)
    ensures |hp| == |s.site.heatPumps| && |currents| == |s.site.chargers|
    ensures GrantedHeatKw(s.site, hp) + GrantedCarsKw(s.site, currents)
            == s.ShareableKw(budgetKw) - UnusedKw(s, m, t, budgetKw)
    ensures UnusedKw(s, m, t, budgetKw) >= 0.0
  {
    GrantsAddUp(s, m, t, budgetKw, currents, hp, amps, spare);
    SpareIs(s.Caps(Charging(s, m, t, budgetKw)), CurrentOf(Max(LastGrant(s, m, t, budgetKw).left, 0.0)), amps, spare);
  }

  // Each device gets what it can do: exempt ones all they may, the others a range or nothing, in whole amps.
  lemma GrantsArePossible(s: Situation, m: Memory, t: real, budgetKw: real, currents: seq<real>, hp: seq<real>,
                          amps: Amps, spare: real, i: nat)
    requires s.Sound() && s.Remembers(m) && Allocated(s, m, t, budgetKw, currents, hp, amps, spare)
    ensures HeatPossible(s.site, s.HeatDemandsKw(), hp)
    ensures |currents| == |s.site.chargers|
    ensures i < |currents| ==>
              if s.site.ExemptCharger(i) then currents[i] == s.CapA(i)
              else currents[i] == 0.0
                   || (s.Waits(i) && EV_MIN_A <= currents[i] <= s.CapA(i) && currents[i] == currents[i].Floor as real)
  {
    var active := Charging(s, m, t, budgetKw);
    LastGrantIs(s, m, t, budgetKw);
    ActiveIs(s, m, t, FirstGrant(s, budgetKw).left);
    WrittenAt(s.Off(), active, amps, |active|);
    assert active[..|active|] == active;
    if i < |currents| && i in active {
      var p :| 0 <= p < |active| && active[p] == i;
      assert s.Caps(active)[p] == s.CapA(i);
    }
  }

  // Exactly the active cars get current.
  lemma ChargesIfActive(s: Situation, m: Memory, t: real, budgetKw: real, currents: seq<real>, hp: seq<real>,
                        amps: Amps, spare: real, i: nat)
    requires s.Sound() && s.Remembers(m) && Allocated(s, m, t, budgetKw, currents, hp, amps, spare)
    requires i < |s.site.chargers| == |currents| && !s.site.ExemptCharger(i)
    ensures currents[i] > 0.0 <==> i in Charging(s, m, t, budgetKw)
    ensures currents[i] == 0.0 <==> i !in Charging(s, m, t, budgetKw)
  {
    var active := Charging(s, m, t, budgetKw);
    ActiveIs(s, m, t, FirstGrant(s, budgetKw).left);
    WrittenAt(s.Off(), active, amps, |active|);
    assert active[..|active|] == active;
  }

  // The best ranked charge: a waiting car without current is preceded by every car with one, and left out
  // only when the minimum did not fit once more.
  lemma BestRankedCharge(s: Situation, m: Memory, t: real, budgetKw: real, i: nat, j: nat)
    requires s.Sound() && s.Remembers(m) && j < |s.site.chargers| && s.Waits(j) && !s.site.ExemptCharger(j)
    requires i in Charging(s, m, t, budgetKw) && j !in Charging(s, m, t, budgetKw)
    ensures i < |s.site.chargers| && Precedes(s.Keys(m, t), i, j)
    ensures FirstGrant(s, budgetKw).left < (|Charging(s, m, t, budgetKw)| + 1) as real * KwOf(EV_MIN_A)
  {
    var limited, left := s.Limited(|s.site.chargers|), FirstGrant(s, budgetKw).left;
    s.LimitedIs(|s.site.chargers|);
    SortRanks(limited, s.Keys(m, t));
    var order, active := s.Order(m, t), Charging(s, m, t, budgetKw);
    PrefixPrecedes(limited, s.Keys(m, t), |active|, i, j);
    FirstGrantIs(s, budgetKw);
    assert |active| == |order| ==> active == order;
    NotOnceMore(left, |active|);
  }

  lemma NotOnceMore(left: real, n: int)
    requires left >= 0.0 && (left / KwOf(EV_MIN_A)).Floor == n
    ensures left < (n + 1) as real * KwOf(EV_MIN_A)
  {
  }

  // The exempt draw is taken off the budget; where it is negative, it adds to it.
  lemma ShareableIsWithinBudget(s: Situation, budgetKw: real)
    requires s.Sound()
    ensures s.ShareableKw(budgetKw) <= Max(budgetKw, 0.0) <==> s.ExemptKw() >= 0.0
  {
  }

  // ---------------------------------------------------------------- the allocator

  // Who charges after this cycle: a waiting car that has current.
  function Charges(s: Situation, currents: seq<real>): seq<bool>
    requires s.Sound() && |currents| == |s.site.chargers|
  {
    seq(|currents|, i requires 0 <= i < |currents| => currents[i] > 0.0 && s.Waits(i))
  }

  method ExemptDraw(s: Situation) returns (kw: real)
    requires s.Sound()
    ensures kw == s.ExemptKw()
  {
    kw := 0.0;
    for i := 0 to |s.site.heatPumps|
      invariant kw == s.ExemptHeatKw(i)
    {
      if s.site.ExemptHeatPump(i) {
        kw := kw + s.HeatDemandKw(i);
      }
    }
    for i := 0 to |s.site.chargers|
      invariant kw == s.ExemptHeatKw(|s.site.heatPumps|) + s.ExemptCarsKw(i)
    {
      if s.Waits(i) && s.site.ExemptCharger(i) {
        kw := kw + s.r.chargers[i].powerKw;
      }
    }
  }

  method GuaranteeShares(site: Site, demand: seq<real>, all: real) returns (hp: seq<real>, left: real)
    requires |demand| == |site.heatPumps|
    ensures Grant(hp, left) == Guaranteed(site, demand, |demand|, all)
  {
    hp, left := RatedKw(site.heatPumps), all;
    for i := 0 to |demand|
      invariant |hp| == |demand| && Grant(hp[..i], left) == Guaranteed(site, demand, i, all)
      invariant forall j :: i <= j < |hp| ==> hp[j] == site.heatPumps[j].ratedKw
    {
      ghost var was := hp;
      if !site.ExemptHeatPump(i) {
        var give := FirstShareKw(site.heatPumps[i], demand[i], left);
        hp := hp[i := give];
        left := left - give;
      }
      assert hp[..i + 1] == was[..i] + [hp[i]];
    }
    assert hp[..|demand|] == hp;
  }

  method TopUpHeatPumps(site: Site, demand: seq<real>, given: seq<real>, all: real) returns (hp: seq<real>, left: real)
    requires |demand| == |site.heatPumps| == |given|
    ensures Grant(hp, left) == ToppedUp(site, demand, |demand|, given, all)
  {
    hp, left := given, all;
    for i := 0 to |demand|
      invariant |hp| == |demand| && Grant(hp[..i], left) == ToppedUp(site, demand, i, given, all)
      invariant forall j :: i <= j < |hp| ==> hp[j] == given[j]
    {
      ghost var was := hp;
      if !site.ExemptHeatPump(i) {
        var extra := ExtraKw(site.heatPumps[i], demand[i], hp[i], left);
        hp := hp[i := hp[i] + extra];
        left := left - extra;
      }
      assert hp[..i + 1] == was[..i] + [hp[i]];
    }
    assert hp[..|demand|] == hp;
  }

  // The cars with at least the minimum, and their currents written back after the water-fill.
  method Charge(s: Situation, active: seq<nat>, leftKw: real) returns (currents: seq<real>, amps: Amps, spare: real)
    requires s.Sound() && Numbers(active, |s.site.chargers|)
    requires forall p :: 0 <= p < |active| ==> s.CapA(active[p]) >= EV_MIN_A
    ensures Filled(s.Caps(active), CurrentOf(Max(leftKw, 0.0)), amps, spare)
    ensures currents == Written(s.Off(), active, amps, |active|)
  {
    amps, spare := Fill(s.Caps(active), CurrentOf(Max(leftKw, 0.0)));
    currents := s.Off();
    for p := 0 to |active|
      invariant currents == Written(s.Off(), active, amps, p)
    {
      currents := currents[active[p] := amps[p] as real];
    }
  }

  method Remember(m: Memory, charging: seq<bool>, t: real) returns (m': Memory)
    requires |charging| == |m.on| == |m.switchedAt|
    ensures m' == Switched(m, charging, t, |charging|)
  {
    m' := m;
    for i := 0 to |charging|
      invariant m' == Switched(m, charging, t, i)
    {
      m' := SetOn(m', i, charging[i], t);
    }
  }

  lemma ActiveTakeTheMinimum(s: Situation, m: Memory, t: real, left: real)
    requires s.Sound() && s.Remembers(m)
    ensures var active := s.Active(m, t, left); forall p :: 0 <= p < |active| ==> s.CapA(active[p]) >= EV_MIN_A
  {
    var active := s.Active(m, t, left);
    ActiveIs(s, m, t, left);
    forall p | 0 <= p < |active|
      ensures s.CapA(active[p]) >= EV_MIN_A
    {
      WaitingTakesTheMinimum(s, active[p]);
    }
  }

  method AllocateHeat(s: Situation, m: Memory, t: real, budgetKw: real) returns (active: seq<nat>, last: Grant)
    requires s.Sound() && s.Remembers(m)
    ensures active == Charging(s, m, t, budgetKw) && last == LastGrant(s, m, t, budgetKw)
  {
    var demand := s.HeatDemandsKw();
    var exempt := ExemptDraw(s);
    var hp, left := GuaranteeShares(s.site, demand, Max(Max(budgetKw, 0.0) - exempt, 0.0));
    active := s.Active(m, t, left);
    left := left - |active| as real * KwOf(EV_MIN_A);
    hp, left := TopUpHeatPumps(s.site, demand, hp, left);
    last := Grant(hp, left);
  }

  // Currents and heat pump limits for a budget (None: unlimited).
  method Allocate(s: Situation, m: Memory, t: real, budgetKw: Option<real>)
    returns (currents: seq<real>, hp: seq<real>, m': Memory, amps: Amps, spare: real)
    requires s.Sound() && s.Remembers(m)
    ensures |currents| == |s.site.chargers| && m' == Switched(m, Charges(s, currents), t, |currents|)
    ensures budgetKw.None? ==> currents == s.Unlimited() && hp == RatedKw(s.site.heatPumps)
    ensures budgetKw.Some? ==> Allocated(s, m, t, budgetKw.value, currents, hp, amps, spare)
  {
    if budgetKw.None? {
      currents, hp, amps, spare := s.Unlimited(), RatedKw(s.site.heatPumps), [], 0.0;
    } else {
      var active, last := AllocateHeat(s, m, t, budgetKw.value);
      ActiveTakeTheMinimum(s, m, t, FirstGrant(s, budgetKw.value).left);
      currents, amps, spare := Charge(s, active, last.left);
      hp := last.hp;
    }
    m' := Remember(m, Charges(s, currents), t);
  }
}
