// Evidence of each consumption reduction (crates/control/src/compliance.rs; BNetzA BK6-22-300
// Anlage 1, 7.2 to 7.4): the recorder, the times a report adds up, and the chain of reports.
module Compliance {
  import opened Basics

  const TOLERANCE_KW := 0.2
  const MAX_SAMPLES := 6 * 3600
  // The chain starts from this digest.
  const GENESIS := seq(64, i => '0')
  // One sample per second; the source allows for rounding.
  const SAMPLE_EVERY_S := 0.999999999

  datatype Sample = Sample(t: real, gridKw: Option<real>, budgetKw: Option<real>)

  // The SHA-256 of a report's text, everything but the digest line (see ReportChain).
  type Digest = Report -> string

  datatype Verdict = Followed | Exceeded | Unverified

  datatype Report = Report(
    seqNo: nat, site: string, epochMs: int, start: real, end: real, floorKw: real, emergency: bool,
    grace: real, samples: seq<Sample>, dropped: nat, maxAfterGrace: Option<real>, exceeded: real,
    unverified: real, verdict: Verdict, previous: string, sha256: string)

  datatype Recording = Recording(
    start: real, floorKw: real, emergency: bool, samples: seq<Sample>, dropped: nat, lastKept: real)

  // What the recorder remembers between cycles.
  datatype Memory = Memory(epochMs: int, open: Option<Recording>, seqNo: nat, last: string, finished: seq<Report>)

  // One control cycle as the recorder sees it.
  datatype Observation = Observation(
    t: real, dimmed: bool, emergency: bool, floorKw: real, gridKw: Option<real>, budgetKw: Option<real>)

  // ---------------------------------------------------------------- what the samples stand for

  datatype Kind = Above | Within | Blind

  function KindOf(s: Sample, floorKw: real): Kind {
    match s.gridKw
    case None => Blind
    case Some(v) => if v > floorKw + TOLERANCE_KW then Above else Within
  }

  // A sample stands for the time until the next one, or the end.
  function NextTime(samples: seq<Sample>, k: nat, end: real): real
    requires k < |samples|
  {
    if k + 1 < |samples| then samples[k + 1].t else end
  }

  // The part of that time after the settling time (not positive: none of it).
  function Span(samples: seq<Sample>, k: nat, settle: real, end: real): real
    requires k < |samples|
  {
    NextTime(samples, k, end) - Max(samples[k].t, settle)
  }

  // The time the first n samples of a kind stand for.
  function TimeOf(kind: Kind, samples: seq<Sample>, floorKw: real, settle: real, end: real, n: nat): real
    requires n <= |samples|
  {
    if n == 0 then 0.0
    else
      var span := Span(samples, n - 1, settle, end);
      TimeOf(kind, samples, floorKw, settle, end, n - 1)
      + (if KindOf(samples[n - 1], floorKw) == kind && span > 0.0 then span else 0.0)
  }

  // The highest draw among the first n samples that stand for any time.
  function MaxOf(samples: seq<Sample>, settle: real, end: real, n: nat): Option<real>
    requires n <= |samples|
  {
    if n == 0 then None
    else
      var before := MaxOf(samples, settle, end, n - 1);
      match samples[n - 1].gridKw
      case Some(v) =>
        if Span(samples, n - 1, settle, end) > 0.0 then Some(if before.Some? then Max(before.value, v) else v)
        else before
      case None => before
  }

  // ---------------------------------------------------------------- the recorder

  function VerdictOf(exceeded: real, unverified: real, dropped: nat): Verdict {
    if exceeded > 0.0 then Exceeded
    else if unverified > 0.0 || dropped > 0 then Unverified
    else Followed
  }

  function Unsigned(site: string, grace: real, m: Memory, o: Recording, end: real): Report {
    var settle := o.start + grace;
    var n := |o.samples|;
    var exceeded := TimeOf(Above, o.samples, o.floorKw, settle, end, n);
    var unverified := TimeOf(Blind, o.samples, o.floorKw, settle, end, n);
    Report(m.seqNo + 1, site, m.epochMs, o.start, end, o.floorKw, o.emergency, grace, o.samples, o.dropped,
           MaxOf(o.samples, settle, end, n), exceeded, unverified,
           VerdictOf(exceeded, unverified, o.dropped), m.last, "")
  }

  function Closed(digest: Digest, site: string, grace: real, m: Memory, o: Recording, end: real): Report {
    var r := Unsigned(site, grace, m, o, end);
    r.(sha256 := digest(r))
  }

  function Sampled(o: Recording, x: Observation): Recording {
    var o' := o.(emergency := o.emergency || x.emergency);
    if x.t - o.lastKept >= SAMPLE_EVERY_S then
      if |o.samples| < MAX_SAMPLES then
        o'.(samples := o.samples + [Sample(x.t, x.gridKw, x.budgetKw)], lastKept := x.t)
      else
        o'.(dropped := o.dropped + 1, lastKept := x.t)
    else o'
  }

  function Observed(digest: Digest, site: string, grace: real, m: Memory, x: Observation): Memory {
    match (m.open, x.dimmed)
    case (None, true) =>
      m.(open := Some(Recording(x.t, x.floorKw, x.emergency, [Sample(x.t, x.gridKw, x.budgetKw)], 0, x.t)))
    case (Some(o), true) => m.(open := Some(Sampled(o, x)))
    case (Some(o), false) =>
      var r := Closed(digest, site, grace, m, o, x.t);
      m.(open := None, seqNo := r.seqNo, last := r.sha256, finished := m.finished + [r])
    case (None, false) => m
  }

  class Recorder {
    const digest: Digest
    const site: string
    const grace: real
    var epochMs: int
    var open: Option<Recording>
    var seqNo: nat
    var last: string
    var finished: seq<Report>

    ghost function View(): Memory
      reads this
    {
      Memory(epochMs, open, seqNo, last, finished)
    }

    constructor (digest: Digest, site: string, grace: real, epochMs: int)
      ensures View() == Memory(epochMs, None, 0, GENESIS, [])
      ensures this.digest == digest && this.site == site && this.grace == grace
    {
      this.digest, this.site, this.grace, this.epochMs := digest, site, grace, epochMs;
      open, seqNo, last, finished := None, 0, GENESIS, [];
    }

    method Resume(seqNo: nat, last: string)
      modifies this
      ensures View() == old(View()).(seqNo := seqNo, last := last)
    {
      this.seqNo, this.last := seqNo, last;
    }

    method TakeReports() returns (reports: seq<Report>)
      modifies this
      ensures reports == old(finished) && View() == old(View()).(finished := [])
    {
      reports := finished;
      finished := [];
    }

    method Observe(x: Observation)
      modifies this
      ensures View() == Observed(digest, site, grace, old(View()), x)
    {
      match (open, x.dimmed) {
        case (None, true) =>
          open := Some(Recording(x.t, x.floorKw, x.emergency, [Sample(x.t, x.gridKw, x.budgetKw)], 0, x.t));
        case (Some(o), true) =>
          var o' := o.(emergency := o.emergency || x.emergency);
          if x.t - o.lastKept >= SAMPLE_EVERY_S {
            if |o.samples| < MAX_SAMPLES {
              o' := o'.(samples := o'.samples + [Sample(x.t, x.gridKw, x.budgetKw)]);
            } else {
              o' := o'.(dropped := o'.dropped + 1);
            }
            o' := o'.(lastKept := x.t);
          }
          open := Some(o');
        case (Some(o), false) =>
          open := None;
          var report := Close(o, x.t);
          last := report.sha256;
          finished := finished + [report];
        case (None, false) =>
      }
    }

    method Close(o: Recording, end: real) returns (r: Report)
      modifies this`seqNo
      ensures r == Closed(digest, site, grace, old(View()), o, end)
      ensures seqNo == r.seqNo
    {
      seqNo := seqNo + 1;
      var settle := o.start + grace;
      var exceeded, unverified := 0.0, 0.0;
      var maxAfter: Option<real> := None;
      for k := 0 to |o.samples|
        invariant exceeded == TimeOf(Above, o.samples, o.floorKw, settle, end, k)
        invariant unverified == TimeOf(Blind, o.samples, o.floorKw, settle, end, k)
        invariant maxAfter == MaxOf(o.samples, settle, end, k)
      {
        var s := o.samples[k];
        var next := if k + 1 < |o.samples| then o.samples[k + 1].t else end;
        var span := next - Max(s.t, settle);
        if span > 0.0 {
          match s.gridKw {
            case Some(v) =>
              maxAfter := Some(if maxAfter.Some? then Max(maxAfter.value, v) else v);
              if v > o.floorKw + TOLERANCE_KW {
                exceeded := exceeded + span;
              }
            case None =>
              unverified := unverified + span;
          }
        }
      }
      var verdict := VerdictOf(exceeded, unverified, o.dropped);
      r := Report(seqNo, site, epochMs, o.start, end, o.floorKw, o.emergency, grace, o.samples, o.dropped,
                  maxAfter, exceeded, unverified, verdict, last, "");
      r := r.(sha256 := digest(r));
    }
  }

  // ---------------------------------------------------------------- the times add up

  ghost predicate Chronological(samples: seq<Sample>, start: real, end: real) {
    && samples != []
    && samples[0].t == start
    && (forall i, j :: 0 <= i < j < |samples| ==> samples[i].t <= samples[j].t)
    && (forall i :: 0 <= i < |samples| ==> samples[i].t <= end)
  }

  lemma {:induction false} TimesAddUp(samples: seq<Sample>, floorKw: real, start: real, settle: real, end: real, n: nat)
    requires Chronological(samples, start, end) && start <= settle && 1 <= n <= |samples|
    ensures TimeOf(Above, samples, floorKw, settle, end, n) + TimeOf(Within, samples, floorKw, settle, end, n)
            + TimeOf(Blind, samples, floorKw, settle, end, n)
            == Max(0.0, NextTime(samples, n - 1, end) - settle)
    decreases n
  {
    if n == 1 {
      assert TimeOf(Above, samples, floorKw, settle, end, 0) == 0.0;
      assert TimeOf(Within, samples, floorKw, settle, end, 0) == 0.0;
      assert TimeOf(Blind, samples, floorKw, settle, end, 0) == 0.0;
    } else {
      TimesAddUp(samples, floorKw, start, settle, end, n - 1);
    }
  }

  // The time above the floor, the time not measured and the time within the floor partition exactly
  // the event after its grace time.
  ghost predicate AddsUp(r: Report) {
    && r.exceeded == TimeOf(Above, r.samples, r.floorKw, r.start + r.grace, r.end, |r.samples|)
    && r.unverified == TimeOf(Blind, r.samples, r.floorKw, r.start + r.grace, r.end, |r.samples|)
    && r.exceeded + r.unverified + TimeOf(Within, r.samples, r.floorKw, r.start + r.grace, r.end, |r.samples|)
       == Max(0.0, (r.end - r.start) - r.grace)
  }

  lemma ReportPartitionsTheEvent(site: string, grace: real, m: Memory, o: Recording, end: real)
    requires Chronological(o.samples, o.start, end) && grace >= 0.0
    ensures AddsUp(Unsigned(site, grace, m, o, end))
  {
    TimesAddUp(o.samples, o.floorKw, o.start, o.start + grace, end, |o.samples|);
  }

  // A kept sample that stands for some time after the grace time.
  ghost predicate Counts(r: Report, k: int) {
    0 <= k < |r.samples| && Span(r.samples, k, r.start + r.grace, r.end) > 0.0
  }

  ghost predicate Stands(samples: seq<Sample>, k: nat, kind: Kind, floorKw: real, settle: real, end: real)
    requires k < |samples|
  {
    Span(samples, k, settle, end) > 0.0 && KindOf(samples[k], floorKw) == kind
  }

  lemma {:induction false} TimeIsPositive(kind: Kind, samples: seq<Sample>, floorKw: real, settle: real, end: real, n: nat)
    requires n <= |samples|
    ensures TimeOf(kind, samples, floorKw, settle, end, n) >= 0.0
    ensures TimeOf(kind, samples, floorKw, settle, end, n) > 0.0
            <==> exists k :: 0 <= k < n && Stands(samples, k, kind, floorKw, settle, end)
    decreases n
  {
    if n > 0 {
      TimeIsPositive(kind, samples, floorKw, settle, end, n - 1);
      if Stands(samples, n - 1, kind, floorKw, settle, end) {
        assert TimeOf(kind, samples, floorKw, settle, end, n) > 0.0;
      }
    }
  }

  // The verdict says exactly what the samples show.
  ghost predicate Truthful(r: Report) {
    && (r.verdict == Exceeded <==> exists k :: Counts(r, k) && KindOf(r.samples[k], r.floorKw) == Above)
    && (r.verdict == Followed
        <==> r.dropped == 0 && forall k :: Counts(r, k) ==> KindOf(r.samples[k], r.floorKw) == Within)
  }

  lemma VerdictIsExact(site: string, grace: real, m: Memory, o: Recording, end: real)
    ensures Truthful(Unsigned(site, grace, m, o, end))
  {
    var r := Unsigned(site, grace, m, o, end);
    CountedTime(r, Above);
    CountedTime(r, Blind);
    if exists k :: Counts(r, k) && KindOf(r.samples[k], r.floorKw) != Within {
      var k :| Counts(r, k) && KindOf(r.samples[k], r.floorKw) != Within;
      assert KindOf(r.samples[k], r.floorKw) == Above || KindOf(r.samples[k], r.floorKw) == Blind;
    }
  }

  lemma CountedTime(r: Report, kind: Kind)
    ensures TimeOf(kind, r.samples, r.floorKw, r.start + r.grace, r.end, |r.samples|) > 0.0
            <==> exists k :: Counts(r, k) && KindOf(r.samples[k], r.floorKw) == kind
    ensures TimeOf(kind, r.samples, r.floorKw, r.start + r.grace, r.end, |r.samples|) >= 0.0
  {
    var settle := r.start + r.grace;
    TimeIsPositive(kind, r.samples, r.floorKw, settle, r.end, |r.samples|);
    forall k | 0 <= k < |r.samples|
      ensures Stands(r.samples, k, kind, r.floorKw, settle, r.end)
              <==> Counts(r, k) && KindOf(r.samples[k], r.floorKw) == kind
    {
    }
  }

  // The reported maximum is the highest draw that counts.
  lemma {:induction false} MaxIsHighest(samples: seq<Sample>, settle: real, end: real, n: nat)
    requires n <= |samples|
    ensures var m := MaxOf(samples, settle, end, n);
      && (forall k :: 0 <= k < n && Span(samples, k, settle, end) > 0.0 && samples[k].gridKw.Some?
            ==> m.Some? && samples[k].gridKw.value <= m.value)
      && (m.Some? ==> exists k :: 0 <= k < n && Span(samples, k, settle, end) > 0.0 && samples[k].gridKw == m)
    decreases n
  {
    if n > 0 {
      MaxIsHighest(samples, settle, end, n - 1);
    }
  }
}
