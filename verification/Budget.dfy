// The power the controllable loads may draw (crates/control/src/controller.rs:534-587): the surplus that has
// lasted, the floor while dimmed, and the gradual return afterwards (BK6-22-300 Anlage 1, section 4.3).
module Budgets {
  import opened Basics
  import opened Sites

  // ---------------------------------------------------------------- the surplus that has lasted

  datatype Seen = Seen(t: real, kw: real)

  predicate Recent(s: Seen, t: real, hold: real) {
    s.t <= t && t - s.t <= hold
  }

  // The measurements still in the window.
  function Kept(seen: seq<Seen>, t: real, hold: real): seq<Seen> {
    if seen == [] then []
    else
      var last := seen[|seen| - 1];
      Kept(seen[..|seen| - 1], t, hold) + (if Recent(last, t, hold) then [last] else [])
  }

  // The least of them and of the current one.
  function Least(seen: seq<Seen>, kw: real): real {
    if seen == [] then kw else Min(Least(seen[..|seen| - 1], kw), seen[|seen| - 1].kw)
  }

  function SeenNext(seen: seq<Seen>, t: real, kw: Option<real>, hold: real): seq<Seen> {
    Kept(seen, t, hold) + (if kw.Some? then [Seen(t, kw.value)] else [])
  }

  function Held(seen: seq<Seen>, t: real, kw: Option<real>, hold: real): Option<real> {
    if kw.Some? then Some(Least(SeenNext(seen, t, kw, hold), kw.value)) else None
  }

  // What was measured in a run of cycles, one of which may have no reading.
  datatype Measured = Measured(t: real, kw: Option<real>)

  ghost predicate Monotone(run: seq<Measured>) {
    forall k, l :: 0 <= k < l < |run| ==> run[k].t <= run[l].t
  }

  // The memory after a run.
  function After(run: seq<Measured>, hold: real): seq<Seen> {
    if run == [] then []
    else SeenNext(After(run[..|run| - 1], hold), run[|run| - 1].t, run[|run| - 1].kw, hold)
  }

  lemma {:induction false} KeptIs(seen: seq<Seen>, t: real, hold: real)
    ensures forall s :: s in Kept(seen, t, hold) <==> s in seen && Recent(s, t, hold)
  {
    if seen != [] {
      KeptIs(seen[..|seen| - 1], t, hold);
      assert seen == seen[..|seen| - 1] + [seen[|seen| - 1]];
    }
  }

  lemma {:induction false} LeastIs(seen: seq<Seen>, kw: real)
    ensures Least(seen, kw) <= kw && forall s :: s in seen ==> Least(seen, kw) <= s.kw
    ensures Least(seen, kw) == kw || exists s :: s in seen && s.kw == Least(seen, kw)
  {
    if seen != [] {
      LeastIs(seen[..|seen| - 1], kw);
      assert seen == seen[..|seen| - 1] + [seen[|seen| - 1]];
    }
  }

  // The run has a measurement of s.
  ghost predicate Has(run: seq<Measured>, s: Seen) {
    Measured(s.t, Some(s.kw)) in run
  }

  // The memory holds exactly what was measured within the hold time of the last cycle: nothing that
  // counts is ever forgotten, nothing older is kept.
  lemma {:induction false} MemoryIsTheWindow(run: seq<Measured>, hold: real)
    requires Monotone(run) && hold >= 0.0 && run != []
    ensures var t := run[|run| - 1].t;
      forall s :: s in After(run, hold) <==> Has(run, s) && Recent(s, t, hold)
    decreases |run|
  {
    var init, last := run[..|run| - 1], run[|run| - 1];
    var before := After(init, hold);
    assert run == init + [last];
    KeptIs(before, last.t, hold);
    if init != [] {
      MemoryIsTheWindow(init, hold);
    }
    forall s: Seen
      ensures s in After(run, hold) <==> Has(run, s) && Recent(s, last.t, hold)
    {
      HasOneMore(init, last, s);
      if Has(init, s) {
        var k :| 0 <= k < |init| && init[k] == Measured(s.t, Some(s.kw));
        assert run[k] == init[k];
      }
    }
  }

  lemma HasOneMore(init: seq<Measured>, last: Measured, s: Seen)
    ensures Has(init + [last], s) <==> Has(init, s) || last == Measured(s.t, Some(s.kw))
  {
  }

  // The least measured within the hold time, and nothing without a measurement now.
  ghost predicate LeastMeasured(run: seq<Measured>, hold: real, held: Option<real>)
    requires run != []
  {
    var last := run[|run| - 1];
    && (held.Some? <==> last.kw.Some?)
    && (held.Some? ==>
          && (exists s :: Has(run, s) && Recent(s, last.t, hold) && s.kw == held.value)
          && (forall s :: Has(run, s) && Recent(s, last.t, hold) ==> held.value <= s.kw))
  }

  // So the held surplus is.
  lemma HeldIsTheLeastOfTheWindow(run: seq<Measured>, hold: real)
    requires Monotone(run) && hold >= 0.0 && run != []
    ensures var last := run[|run| - 1];
      LeastMeasured(run, hold, Held(After(run[..|run| - 1], hold), last.t, last.kw, hold))
  {
    var last := run[|run| - 1];
    if last.kw.Some? {
      MemoryIsTheWindow(run, hold);
      LeastIs(After(run, hold), last.kw.value);
      assert run[|run| - 1] in run;
      assert Has(run, Seen(last.t, last.kw.value));
    }
  }

  // ---------------------------------------------------------------- dimming and release

  datatype Mode = Normal | Dimmed | Releasing

  // The wait over, and the budget power returns from.
  datatype Release = Release(start: real, fromKw: real)

  // An unlimited budget is None.
  datatype Memory = Memory(wasDimmed: bool, lastKw: Option<real>, release: Option<Release>)

  datatype Outcome = Outcome(mode: Mode, budgetKw: Option<real>, waitS: Option<real>, m: Memory)

  function RampedKw(fromKw: real, fullKw: real, since: real, ramp: real): real
    requires ramp > 0.0
  {
    fromKw + (fullKw - fromKw) * since / ramp
  }

  // The random wait.
  function WaitS(site: Site, unit: real): real {
    site.releaseDelayMaxS * unit
  }

  // Power returns linearly, after the wait.
  function Returned(site: Site, r: Release, t: real): Option<real>
    requires site.releaseRampS >= 0.0
  {
    if t < r.start then Some(r.fromKw)
    else if t - r.start < site.releaseRampS then
      Some(RampedKw(r.fromKw, site.RatedLoadsKw(), t - r.start, site.releaseRampS))
    else None
  }

  predicate Consistent(m: Memory) {
    m.wasDimmed ==> m.lastKw.Some?
  }

  // One cycle. unit is the draw of the random wait, in [0, 1).
  function Step(site: Site, m: Memory, t: real, dim: bool, floorKw: real, heldKw: Option<real>, unit: real): Outcome
    requires site.releaseRampS >= 0.0 && Consistent(m)
  {
    if dim then
      var budget := floorKw + heldKw.UnwrapOr(0.0) - site.marginKw;
      Outcome(Dimmed, Some(budget), None, Memory(true, Some(budget), None))
    else
      var release :=
        if m.wasDimmed then Some(Release(t + WaitS(site, unit), m.lastKw.value)) else m.release;
      if release.Some? && Returned(site, release.value, t).Some? then
        var budget := Returned(site, release.value, t);
        Outcome(Releasing, budget, if t < release.value.start then Some(release.value.start - t) else None,
                Memory(false, budget, release))
      else Outcome(Normal, None, None, Memory(false, None, None))
  }

  lemma StepKeepsConsistent(site: Site, m: Memory, t: real, dim: bool, floorKw: real, heldKw: Option<real>, unit: real)
    requires site.releaseRampS >= 0.0 && Consistent(m)
    ensures var o := Step(site, m, t, dim, floorKw, heldKw, unit);
      && Consistent(o.m) && o.m.lastKw == o.budgetKw && (o.m.wasDimmed <==> dim)
      && (o.mode == Dimmed <==> dim) && (o.mode == Normal <==> o.budgetKw.None?)
  {
  }

  lemma Share(a: real, u: real, part: real)
    requires a >= 0.0 && 0.0 <= u < 1.0 && part == a * u
    ensures 0.0 <= part <= a && (a > 0.0 ==> part < a)
  {
    var rest := 1.0 - u;
    assert a * rest >= 0.0 && (a > 0.0 ==> a * rest > 0.0);
    assert a * rest == a - part;
  }

  lemma WaitIsBounded(site: Site, unit: real)
    requires site.releaseDelayMaxS >= 0.0 && 0.0 <= unit < 1.0
    ensures 0.0 <= WaitS(site, unit) <= site.releaseDelayMaxS
    ensures site.releaseDelayMaxS > 0.0 ==> WaitS(site, unit) < site.releaseDelayMaxS
  {
    Share(site.releaseDelayMaxS, unit, WaitS(site, unit));
  }

  // A dimming never ends in normal operation at once, unless both the wait and the ramp are nothing.
  lemma DimmedGoesStraightToNormalOnlyWithoutRamp(site: Site, m: Memory, t: real, floorKw: real, heldKw: Option<real>,
                                                  unit: real)
    requires site.Valid() && Consistent(m) && m.wasDimmed && 0.0 <= unit < 1.0
    ensures Step(site, m, t, false, floorKw, heldKw, unit).mode == Normal
            <==> site.releaseRampS == 0.0 && WaitS(site, unit) == 0.0
  {
    WaitIsBounded(site, unit);
  }

  // ---------------------------------------------------------------- the whole way back

  // Cycles without dimming, each at its time; their draws are not used.
  function Undimmed(site: Site, m: Memory, times: seq<real>, unit: real): (m': Memory)
    requires site.releaseRampS >= 0.0 && Consistent(m)
    ensures Consistent(m')
  {
    if times == [] then m
    else
      Step(site, Undimmed(site, m, times[..|times| - 1], unit), times[|times| - 1], false, 0.0, None, unit).m
  }

  // Where the release stands at a time.
  ghost predicate Returning(site: Site, m: Memory, r: Release, t: real)
    requires site.releaseRampS >= 0.0
  {
    && !m.wasDimmed && m.lastKw == Returned(site, r, t)
    && m.release == if m.lastKw.Some? then Some(r) else None
  }

  lemma ReturningBegins(site: Site, m: Memory, t: real, unit: real)
    requires site.Valid() && Consistent(m) && m.wasDimmed
    ensures Returning(site, Step(site, m, t, false, 0.0, None, unit).m, Release(t + WaitS(site, unit), m.lastKw.value), t)
  {
  }

  // Without dimming neither the floor nor the surplus matters.
  lemma UndimmedIgnoresFloor(site: Site, m: Memory, t: real, floorKw: real, heldKw: Option<real>, unit: real)
    requires site.releaseRampS >= 0.0 && Consistent(m)
    ensures Step(site, m, t, false, floorKw, heldKw, unit) == Step(site, m, t, false, 0.0, None, unit)
  {
  }

  lemma ReturningGoesOn(site: Site, m: Memory, r: Release, t: real, t': real, unit: real)
    requires site.Valid() && Returning(site, m, r, t) && t <= t'
    ensures Returning(site, Step(site, m, t', false, 0.0, None, unit).m, r, t')
  {
  }

  // After a dimming the budget depends on nothing but the last dimmed budget, the wait drawn and the time:
  // constant for the wait, then linear towards the rated load, then unlimited, at every cycle of every run.
  lemma {:induction false} ReleaseFollowsTheClock(site: Site, m: Memory, times: seq<real>, unit: real)
    requires site.Valid() && Consistent(m) && m.wasDimmed && times != []
    requires forall k, l :: 0 <= k < l < |times| ==> times[k] <= times[l]
    ensures var r := Release(times[0] + WaitS(site, unit), m.lastKw.value);
      Returning(site, Undimmed(site, m, times, unit), r, times[|times| - 1])
    decreases |times|
  {
    var init, t := times[..|times| - 1], times[|times| - 1];
    if init == [] {
      assert Undimmed(site, m, init, unit) == m;
    } else {
      ReleaseFollowsTheClock(site, m, init, unit);
      var r := Release(times[0] + WaitS(site, unit), m.lastKw.value);
      ReturningGoesOn(site, Undimmed(site, m, init, unit), r, init[|init| - 1], t, unit);
    }
  }

  lemma ScaledDown(d: real, f: real)
    requires 0.0 <= f <= 1.0
    ensures if d >= 0.0 then 0.0 <= d * f <= d else d <= d * f <= 0.0
  {
  }

  lemma Regroup(d: real, a: real, b: real)
    requires b > 0.0
    ensures d * a / b == d * (a / b)
  {
  }

  lemma FractionIs(a: real, b: real)
    requires 0.0 <= a < b
    ensures 0.0 <= a / b <= 1.0
  {
  }

  lemma RampedIsBetween(fromKw: real, fullKw: real, since: real, ramp: real)
    requires 0.0 <= since < ramp
    ensures Min(fromKw, fullKw) <= RampedKw(fromKw, fullKw, since, ramp) <= Max(fromKw, fullKw)
  {
    FractionIs(since, ramp);
    Regroup(fullKw - fromKw, since, ramp);
    ScaledDown(fullKw - fromKw, since / ramp);
  }

  // On the way back the budget stays between the last dimmed one and the rated load.
  lemma ReturnedIsBetween(site: Site, r: Release, t: real)
    requires site.Valid() && Returned(site, r, t).Some?
    ensures var budget := Returned(site, r, t).value;
      Min(r.fromKw, site.RatedLoadsKw()) <= budget <= Max(r.fromKw, site.RatedLoadsKw())
  {
    if t >= r.start {
      RampedIsBetween(r.fromKw, site.RatedLoadsKw(), t - r.start, site.releaseRampS);
    }
  }

  lemma Bigger(d: real, a: real, a': real)
    requires a <= a' && d >= 0.0
    ensures d * a <= d * a'
  {
  }

  lemma RampedRises(fromKw: real, fullKw: real, since: real, since': real, ramp: real)
    requires 0.0 <= since <= since' < ramp && fromKw <= fullKw
    ensures RampedKw(fromKw, fullKw, since, ramp) <= RampedKw(fromKw, fullKw, since', ramp)
  {
    Bigger(fullKw - fromKw, since, since');
    Divide((fullKw - fromKw) * since, (fullKw - fromKw) * since', ramp);
  }

  // Where the rated load is above the last dimmed budget, power only ever comes back.
  lemma ReturnedOnlyRises(site: Site, r: Release, t: real, t': real)
    requires site.Valid() && t <= t' && r.fromKw <= site.RatedLoadsKw() && Returned(site, r, t').Some?
    ensures Returned(site, r, t).Some? && Returned(site, r, t).value <= Returned(site, r, t').value
  {
    if t >= r.start {
      RampedRises(r.fromKw, site.RatedLoadsKw(), t - r.start, t' - r.start, site.releaseRampS);
    } else if t' >= r.start {
      RampedIsBetween(r.fromKw, site.RatedLoadsKw(), t' - r.start, site.releaseRampS);
    }
  }
}
