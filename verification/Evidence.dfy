// The compliance reports that a run of the controller leaves behind (crates/control/src/controller.rs:718-725).
module Evidence {
  import opened Basics
  import opened Sites
  import opened Control
  import opened Promise
  import opened Compliance
  import opened ReportChain
  import opened ReportText
  import opened Recordings
  import opened Runs

  // What the recorder sees of cycle k.
  ghost function ObservationAt(site: Site, start: State, cycles: seq<Cycle>, k: nat): Observation
    requires Trace(site, start, cycles) && k < |cycles|
  {
    ObservationOf(cycles[k].clock, cycles[k].cmd, DecisionAt(site, start, cycles, k))
  }

  ghost function ObservationsOf(site: Site, start: State, cycles: seq<Cycle>): seq<Observation>
    requires Trace(site, start, cycles)
  {
    seq(|cycles|, k requires 0 <= k < |cycles| => ObservationAt(site, start, cycles, k))
  }

  lemma ObservationIs(site: Site, start: State, cycles: seq<Cycle>, k: nat)
    requires Trace(site, start, cycles) && k < |cycles|
    ensures var x := ObservationAt(site, start, cycles, k);
      && x.t == cycles[k].clock.t && x.emergency == cycles[k].cmd.emergency && x.floorKw == FloorFor(site, cycles[k].cmd)
      && (x.dimmed <==> DimsAt(site, start, cycles, k))
  {
    assert LegalAt(site, start, cycles, k);
    DimIsRemembered(site, start, cycles, k);
  }

  lemma ObservedInOrder(site: Site, start: State, cycles: seq<Cycle>)
    requires Trace(site, start, cycles) && ClockIsMonotone(cycles)
    ensures MonotoneClock(ObservationsOf(site, start, cycles))
  {
    var xs := ObservationsOf(site, start, cycles);
    forall i, j | 0 <= i < j < |xs|
      ensures xs[i].t <= xs[j].t
    {
      ObservationIs(site, start, cycles, i);
      ObservationIs(site, start, cycles, j);
    }
  }

  // Cycles a up to, not including, b are dimmed, and the ones around them are not.
  ghost predicate DimmedFrom(site: Site, start: State, cycles: seq<Cycle>, a: nat, b: nat)
    requires Trace(site, start, cycles)
  {
    && a < b < |cycles| && (forall k :: a <= k < b ==> DimsAt(site, start, cycles, k)) && !DimsAt(site, start, cycles, b)
    && (a > 0 ==> !DimsAt(site, start, cycles, a - 1))
  }

  lemma DimmedFromIsSpell(site: Site, start: State, cycles: seq<Cycle>, a: nat, b: nat)
    requires Trace(site, start, cycles)
    ensures DimmedFrom(site, start, cycles, a, b) <==> Spell(ObservationsOf(site, start, cycles), a, b)
  {
    var xs := ObservationsOf(site, start, cycles);
    forall k | 0 <= k < |cycles|
      ensures xs[k].dimmed <==> DimsAt(site, start, cycles, k)
    {
      ObservationIs(site, start, cycles, k);
    }
  }

  // Report r is about cycles a up to, not including, b: it starts with the first and ends with the one after the last, and
  // has the floor of the first, an emergency if one of them had one, and the samples that were due.
  ghost predicate ReportsOn(site: Site, start: State, cycles: seq<Cycle>, r: Report, a: nat, b: nat)
    requires Trace(site, start, cycles)
  {
    && DimmedFrom(site, start, cycles, a, b)
    && r.start == cycles[a].clock.t && r.end == cycles[b].clock.t && r.floorKw == FloorFor(site, cycles[a].cmd)
    && (r.emergency <==> exists k :: a <= k < b && cycles[k].cmd.emergency)
    && Records(r, ObservationsOf(site, start, cycles)[a..b])
  }

  lemma {:induction false} EmergencyIs(ys: seq<Observation>)
    ensures Emergency(ys) <==> exists k :: 0 <= k < |ys| && ys[k].emergency
    decreases |ys|
  {
    if ys != [] {
      EmergencyIs(ys[..|ys| - 1]);
    }
  }

  lemma EmergencyWithin(site: Site, start: State, cycles: seq<Cycle>, a: nat, b: nat)
    requires Trace(site, start, cycles) && a < b <= |cycles|
    ensures Emergency(ObservationsOf(site, start, cycles)[a..b]) <==> exists k :: a <= k < b && cycles[k].cmd.emergency
  {
    var ys := ObservationsOf(site, start, cycles)[a..b];
    EmergencyIs(ys);
    forall k | a <= k < b
      ensures ys[k - a].emergency == cycles[k].cmd.emergency
    {
      ObservationIs(site, start, cycles, k);
    }
  }

  // A report of a stretch of the run is about that stretch.
  lemma ReportIsOn(site: Site, start: State, cycles: seq<Cycle>, r: Report, s: Stretch, a: nat, b: nat)
    requires Trace(site, start, cycles) && Spell(ObservationsOf(site, start, cycles), a, b)
    requires var xs := ObservationsOf(site, start, cycles); s == Stretch(xs[a..b], xs[b].t)
    requires Spans(r, s) && Records(r, s.cycles)
    ensures ReportsOn(site, start, cycles, r, a, b)
  {
    DimmedFromIsSpell(site, start, cycles, a, b);
    ObservationIs(site, start, cycles, a);
    ObservationIs(site, start, cycles, b);
    EmergencyWithin(site, start, cycles, a, b);
  }

  // The reports and the stretches of dimming in a run that have ended, in order.
  ghost predicate ReportsOnAll(site: Site, start: State, cycles: seq<Cycle>, written: seq<Report>,
                               spells: seq<(nat, nat)>)
    requires Trace(site, start, cycles)
  {
    && |written| == |spells|
    && (forall i :: 0 <= i < |spells| ==> ReportsOn(site, start, cycles, written[i], spells[i].0, spells[i].1))
    && (forall a: nat, b: nat :: DimmedFrom(site, start, cycles, a, b) ==> (a, b) in spells)
    && forall i :: 0 < i < |spells| ==> spells[i - 1].1 < spells[i].0
  }

  // In every run of the controller with a monotone clock, with its recorder fed every cycle and its reports taken at any
  // time, there is exactly one report for each stretch of dimming that has ended: with its times, the floor it began
  // with, its emergencies, and its samples.
  lemma EveryDimmingIsReported(site: Site, start: State, cycles: seq<Cycle>, digest: Digest, name: string, grace: real,
                               m: Memory, events: seq<Event>)
    requires Trace(site, start, cycles) && ClockIsMonotone(cycles)
    requires m.open.None? && m.finished == [] && grace >= 0.0
    requires Observations(events) == ObservationsOf(site, start, cycles)
    ensures var written := Written(digest, name, grace, m, events);
      && ReportsOnAll(site, start, cycles, written, Spells(ObservationsOf(site, start, cycles)))
      && Chained(written, m.seqNo, m.last) && forall r :: r in written ==> Faithful(digest, name, r)
  {
    var xs, written := ObservationsOf(site, start, cycles), Written(digest, name, grace, m, events);
    ObservedInOrder(site, start, cycles);
    EveryReportIsSure(digest, name, grace, m, events);
    EveryReportRecordsItsStretch(digest, name, grace, m, events);
    ReportsAreOn(site, start, cycles, written);
  }

  lemma ReportsAreOn(site: Site, start: State, cycles: seq<Cycle>, written: seq<Report>)
    requires Trace(site, start, cycles)
    requires var xs := ObservationsOf(site, start, cycles); SpanAll(written, Ended(xs)) && AllRecorded(written, Ended(xs))
    ensures ReportsOnAll(site, start, cycles, written, Spells(ObservationsOf(site, start, cycles)))
  {
    var xs := ObservationsOf(site, start, cycles);
    var spells := Spells(xs);
    forall i | 0 <= i < |spells|
      ensures ReportsOn(site, start, cycles, written[i], spells[i].0, spells[i].1)
      ensures i > 0 ==> spells[i - 1].1 < spells[i].0
    {
      SpellsEnded(xs, i);
      if i > 0 {
        SpellsRise(xs, i);
      }
      SpellsAre(xs, spells[i].0, spells[i].1);
      ReportIsOn(site, start, cycles, written[i], Ended(xs)[i], spells[i].0, spells[i].1);
    }
    forall a: nat, b: nat | DimmedFrom(site, start, cycles, a, b)
      ensures (a, b) in spells
    {
      DimmedFromIsSpell(site, start, cycles, a, b);
      SpellsAre(xs, a, b);
    }
  }

  // And the files verify, in one chain.
  lemma EveryDimmingIsOnFile(site: Site, start: State, cycles: seq<Cycle>, f: Formats, name: string, grace: real,
                             epochMs: int, events: seq<Event>)
    requires Trace(site, start, cycles) && ClockIsMonotone(cycles)
    requires Sound(f) && OneLine(name) && grace >= 0.0
    requires Observations(events) == ObservationsOf(site, start, cycles)
    ensures var csvs := Csvs(f, Written(DigestWith(f), name, grace, Memory(epochMs, None, 0, GENESIS, []), events));
      VerifiedChain(f, csvs, GENESIS) && |csvs| == |Spells(ObservationsOf(site, start, cycles))|
  {
    var m := Memory(epochMs, None, 0, GENESIS, []);
    ObservedInOrder(site, start, cycles);
    EveryRunVerifies(f, name, grace, epochMs, events);
    EveryDimmingIsReported(site, start, cycles, DigestWith(f), name, grace, m, events);
  }
}
