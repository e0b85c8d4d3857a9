// What a report keeps of the cycles it covers (crates/control/src/compliance.rs:138-179).
module Recordings {
  import opened Basics
  import opened Compliance
  import opened ReportChain

  // The cycles of a stretch of dimming that are due to be kept: the first, and then whenever long enough after the last.
  function Due(ys: seq<Observation>): seq<Observation> {
    if ys == [] then []
    else
      var before, y := Due(ys[..|ys| - 1]), ys[|ys| - 1];
      if before == [] || y.t - before[|before| - 1].t >= SAMPLE_EVERY_S then before + [y] else before
  }

  function Samples(ys: seq<Observation>): seq<Sample> {
    seq(|ys|, i requires 0 <= i < |ys| => Sample(ys[i].t, ys[i].gridKw, ys[i].budgetKw))
  }

  function Emergency(ys: seq<Observation>): bool {
    ys != [] && (Emergency(ys[..|ys| - 1]) || ys[|ys| - 1].emergency)
  }

  // As many as there is room for; the others are counted.
  function KeptOf(due: seq<Observation>): seq<Observation> {
    if |due| <= MAX_SAMPLES then due else due[..MAX_SAMPLES]
  }

  // What is recorded of a stretch.
  ghost predicate Recorded(ys: seq<Observation>, start: real, floorKw: real, emergency: bool, samples: seq<Sample>,
                           dropped: nat)
  {
    && ys != [] && start == ys[0].t && floorKw == ys[0].floorKw && emergency == Emergency(ys)
    && samples == Samples(KeptOf(Due(ys))) && dropped == |Due(ys)| - |KeptOf(Due(ys))|
  }

  ghost predicate Records(r: Report, ys: seq<Observation>) {
    Recorded(ys, r.start, r.floorKw, r.emergency, r.samples, r.dropped)
  }

  ghost predicate Mirrors(o: Recording, ys: seq<Observation>) {
    && Recorded(ys, o.start, o.floorKw, o.emergency, o.samples, o.dropped)
    && Due(ys) != [] && o.lastKept == Due(ys)[|Due(ys)| - 1].t
  }

  // ---------------------------------------------------------------- what is due

  lemma {:induction false} DueInStretch(ys: seq<Observation>, y: Observation)
    requires y in Due(ys)
    ensures y in ys
    decreases |ys|
  {
    if y != ys[|ys| - 1] {
      DueInStretch(ys[..|ys| - 1], y);
    }
  }

  // Each is at least a second after the one before.
  lemma {:induction false} DueAreApart(ys: seq<Observation>, k: nat)
    requires 0 < k < |Due(ys)|
    ensures Due(ys)[k].t - Due(ys)[k - 1].t >= SAMPLE_EVERY_S
    decreases |ys|
  {
    if k < |Due(ys[..|ys| - 1])| {
      DueAreApart(ys[..|ys| - 1], k);
    }
  }

  // And no cycle of the stretch is a second or more after the last due one before it.
  lemma {:induction false} NoneIsMissed(ys: seq<Observation>, k: nat)
    requires k < |ys|
    ensures Due(ys[..k + 1]) <= Due(ys) && Due(ys[..k + 1]) != []
    ensures var due := Due(ys[..k + 1]); ys[k].t - due[|due| - 1].t < SAMPLE_EVERY_S
    decreases |ys|
  {
    var init := ys[..|ys| - 1];
    if k < |init| {
      NoneIsMissed(init, k);
      assert init[..k + 1] == ys[..k + 1];
    } else {
      assert ys[..k + 1] == ys;
    }
  }

  // ---------------------------------------------------------------- one cycle more

  lemma OpenedMirrors(x: Observation)
    ensures Mirrors(Recording(x.t, x.floorKw, x.emergency, [Sample(x.t, x.gridKw, x.budgetKw)], 0, x.t), [x])
  {
    assert [x][..0] == [];
    assert Due([x]) == [x] && Emergency([]) == false;
    assert Samples([x]) == [Sample(x.t, x.gridKw, x.budgetKw)];
  }

  lemma KeptNext(due: seq<Observation>, x: Observation)
    ensures KeptOf(due + [x]) == if |due| < MAX_SAMPLES then KeptOf(due) + [x] else KeptOf(due)
  {
  }

  lemma SamplesNext(due: seq<Observation>, x: Observation)
    ensures Samples(due + [x]) == Samples(due) + [Sample(x.t, x.gridKw, x.budgetKw)]
  {
  }

  lemma SampledMirrors(o: Recording, ys: seq<Observation>, x: Observation)
    requires Mirrors(o, ys)
    ensures Mirrors(Sampled(o, x), ys + [x])
  {
    var all := ys + [x];
    assert all[..|all| - 1] == ys;
    assert Emergency(all) == (Emergency(ys) || x.emergency);
    KeptNext(Due(ys), x);
    SamplesNext(KeptOf(Due(ys)), x);
  }

  // ---------------------------------------------------------------- whole runs

  ghost predicate AllRecorded(written: seq<Report>, stretches: seq<Stretch>) {
    |written| == |stretches| && forall i :: 0 <= i < |written| ==> Records(written[i], stretches[i].cycles)
  }

  ghost predicate RunningMirrored(m: Memory, xs: seq<Observation>) {
    && (m.open.Some? <==> Running(xs) != [])
    && (m.open.Some? ==> Mirrors(m.open.value, Running(xs)))
  }

  lemma ObservedRecords(digest: Digest, site: string, grace: real, m: Memory, xs: seq<Observation>, taken: seq<Report>,
                        x: Observation)
    requires RunningMirrored(m, xs) && AllRecorded(taken + m.finished, Ended(xs))
    ensures var after := Observed(digest, site, grace, m, x);
      RunningMirrored(after, xs + [x]) && AllRecorded(taken + after.finished, Ended(xs + [x]))
  {
    var after := Observed(digest, site, grace, m, x);
    RunningNext(xs, x);
    match (m.open, x.dimmed) {
      case (None, true) =>
        OpenedMirrors(x);
        assert [] + [x] == [x];
      case (Some(o), true) => SampledMirrors(o, Running(xs), x);
      case (Some(o), false) =>
        var r := Closed(digest, site, grace, m, o, x.t);
        assert Records(r, Running(xs));
        assert taken + after.finished == (taken + m.finished) + [r];
      case (None, false) =>
        assert Ended(xs) + [] == Ended(xs);
    }
  }

  // Whatever a recorder observes, and whenever its reports are taken: the reports written and the stretches of dimming
  // that have ended correspond one to one, and each report has the floor of the first cycle of its stretch, its emergency
  // flag if any cycle had one, and as samples the cycles that were due, the earliest ones if there were too many, with the
  // number of the others.
  lemma {:induction false} EveryReportRecordsItsStretch(digest: Digest, site: string, grace: real, m: Memory,
                                                        events: seq<Event>)
    requires m.open.None? && m.finished == []
    ensures var xs := Observations(events);
      && AllRecorded(Written(digest, site, grace, m, events), Ended(xs))
      && RunningMirrored(Watch(digest, site, grace, m, events).0, xs)
    decreases |events|
  {
    if events != [] {
      var init, e := events[..|events| - 1], events[|events| - 1];
      var xs := Observations(init);
      EveryReportRecordsItsStretch(digest, site, grace, m, init);
      var (before, taken) := Watch(digest, site, grace, m, init);
      match e {
        case Observe(x) => ObservedRecords(digest, site, grace, before, xs, taken, x);
        case Take =>
          assert xs + [] == xs;
          assert (taken + before.finished) + [] == taken + before.finished;
      }
    }
  }

  // ---------------------------------------------------------------- the stretches in a run

  // Cycles a up to, not including, b are a stretch of dimming that has ended.
  ghost predicate Spell(xs: seq<Observation>, a: nat, b: nat) {
    && a < b < |xs| && (forall k :: a <= k < b ==> xs[k].dimmed) && !xs[b].dimmed
    && (a > 0 ==> !xs[a - 1].dimmed)
  }

  lemma {:induction false} RunningIs(xs: seq<Observation>)
    ensures var from := |xs| - |Running(xs)|;
      && 0 <= from && Running(xs) == xs[from..] && (forall k :: from <= k < |xs| ==> xs[k].dimmed)
      && (from > 0 ==> !xs[from - 1].dimmed)
    decreases |xs|
  {
    if xs != [] && xs[|xs| - 1].dimmed {
      var init := xs[..|xs| - 1];
      RunningIs(init);
      assert xs[|init| - |Running(init)|..] == init[|init| - |Running(init)|..] + [xs[|init|]];
    }
  }

  // Where the stretches that have ended lie.
  ghost function Spells(xs: seq<Observation>): (spells: seq<(nat, nat)>)
    ensures |spells| == |Ended(xs)|
  {
    if xs == [] then []
    else
      var init, x := xs[..|xs| - 1], xs[|xs| - 1];
      RunningIs(init);
      Spells(init) + (if Running(init) != [] && !x.dimmed then [(|init| - |Running(init)|, |init|)] else [])
  }

  lemma SpellLater(xs: seq<Observation>, x: Observation, a: nat, b: nat)
    ensures b < |xs| ==> (Spell(xs + [x], a, b) <==> Spell(xs, a, b))
    ensures Spell(xs + [x], a, |xs|) <==> Running(xs) != [] && !x.dimmed && a == |xs| - |Running(xs)|
  {
    var all, from := xs + [x], |xs| - |Running(xs)|;
    RunningIs(xs);
    assert forall k :: 0 <= k < |xs| ==> all[k] == xs[k];
  }

  // They are all of them.
  lemma {:induction false} SpellsAre(xs: seq<Observation>, a: nat, b: nat)
    ensures (a, b) in Spells(xs) <==> Spell(xs, a, b)
    decreases |xs|
  {
    if xs != [] {
      var init, x := xs[..|xs| - 1], xs[|xs| - 1];
      assert init + [x] == xs;
      SpellsAre(init, a, b);
      SpellLater(init, x, a, b);
    }
  }

  // Stretch s is cycles a up to, not including, b.
  ghost predicate Lies(xs: seq<Observation>, s: Stretch, a: nat, b: nat) {
    a < b < |xs| && s == Stretch(xs[a..b], xs[b].t)
  }

  lemma LiesLater(xs: seq<Observation>, x: Observation, s: Stretch, a: nat, b: nat)
    requires Lies(xs, s, a, b)
    ensures Lies(xs + [x], s, a, b)
  {
    assert (xs + [x])[a..b] == xs[a..b];
  }

  lemma LastLies(xs: seq<Observation>, x: Observation, a: nat)
    requires Running(xs) != [] && a == |xs| - |Running(xs)|
    ensures Lies(xs + [x], Stretch(Running(xs), x.t), a, |xs|)
  {
    RunningIs(xs);
    assert (xs + [x])[a..|xs|] == xs[a..];
  }

  lemma SpellsNext(xs: seq<Observation>, x: Observation)
    ensures |Running(xs)| <= |xs|
    ensures Spells(xs + [x])
            == Spells(xs) + (if Running(xs) != [] && !x.dimmed then [(|xs| - |Running(xs)|, |xs|)] else [])
  {
    RunningIs(xs);
    assert (xs + [x])[..|xs|] == xs;
  }

  // Each of them is the stretch of the same number.
  lemma {:induction false} SpellsEnded(xs: seq<Observation>, i: nat)
    requires i < |Ended(xs)|
    ensures Lies(xs, Ended(xs)[i], Spells(xs)[i].0, Spells(xs)[i].1)
    decreases |xs|
  {
    var init, x := xs[..|xs| - 1], xs[|xs| - 1];
    assert init + [x] == xs;
    SpellsNext(init, x);
    RunningNext(init, x);
    if i < |Ended(init)| {
      SpellsEnded(init, i);
      LiesLater(init, x, Ended(init)[i], Spells(init)[i].0, Spells(init)[i].1);
    } else {
      LastLies(init, x, |init| - |Running(init)|);
    }
  }

  // In order.
  lemma {:induction false} SpellsRise(xs: seq<Observation>, i: nat)
    requires 0 < i < |Spells(xs)|
    ensures Spells(xs)[i - 1].1 < Spells(xs)[i].0
    decreases |xs|
  {
    var init, x := xs[..|xs| - 1], xs[|xs| - 1];
    assert init + [x] == xs;
    SpellsNext(init, x);
    if i < |Spells(init)| {
      SpellsRise(init, i);
    } else {
      EndsBeforeRunning(init, Spells(init)[i - 1].0, Spells(init)[i - 1].1);
    }
  }

  lemma EndsBeforeRunning(xs: seq<Observation>, a: nat, b: nat)
    requires (a, b) in Spells(xs)
    ensures b < |xs| - |Running(xs)|
  {
    SpellsAre(xs, a, b);
    RunningIs(xs);
  }
}
