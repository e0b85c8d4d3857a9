// The reports as a chain of signed texts: what a run of the recorder writes, and what verifying
// such a chain proves.
module ReportChain {
  import opened Basics
  import opened Compliance
  import opened ReportText

  // ---------------------------------------------------------------- the text of a report

  // f64::round: half away from zero.
  function Round(x: real): int {
    if x >= 0.0 then (x + 0.5).Floor else -(-x + 0.5).Floor
  }

  function TimeText(f: Formats, r: Report, t: real): string {
    f.time(r.epochMs + Round(t * 1000.0))
  }

  function Yes(b: bool): string {
    if b then "true" else "false"
  }

  function VerdictName(v: Verdict): string {
    match v
    case Followed => "followed"
    case Exceeded => "exceeded"
    case Unverified => "unverified"
  }

  const TITLE := "# Consumption reduction report " + "(BK6-22-300 Anlage 1, 7.2)"
  const PREVIOUS := "# previous_sha256: "
  const PREVIOUS_LINE := 15

  function EventLines(f: Formats, r: Report): seq<string> {
    [ TITLE,
      "# site: " + r.site,
      "# report: " + f.decimal(r.seqNo),
      "# start: " + TimeText(f, r, r.start),
      "# end: " + TimeText(f, r, r.end),
      "# duration_s: " + f.fixed0(r.end - r.start) ]
  }

  function RuleLines(f: Formats, r: Report): seq<string> {
    [ "# floor_kw: " + f.fixed2(r.floorKw),
      "# tolerance_kw: " + f.fixed2(TOLERANCE_KW),
      "# grace_s: " + f.fixed0(r.grace),
      "# emergency: " + Yes(r.emergency),
      "# max_after_grace_kw: " + Highest(f, r.maxAfterGrace) ]
  }

  function ResultLines(f: Formats, r: Report): seq<string> {
    [ "# exceeded_s: " + f.fixed0(r.exceeded),
      "# unverified_s: " + f.fixed0(r.unverified),
      "# samples_dropped: " + f.decimal(r.dropped),
      "# verdict: " + VerdictName(r.verdict),
      PREVIOUS + r.previous,
      "time,elapsed_s,steuve_grid_kw,floor_kw,granted_kw,within_floor" ]
  }

  function Highest(f: Formats, kw: Option<real>): string {
    if kw.Some? then f.fixed2(kw.value) else "unknown"
  }

  function Kilowatts(f: Formats, kw: Option<real>): string {
    if kw.Some? then f.fixed2(kw.value) else ""
  }

  function SampleLine(f: Formats, r: Report, s: Sample): string {
    TimeText(f, r, s.t) + "," + f.fixed0(s.t - r.start) + "," + Kilowatts(f, s.gridKw) + ","
    + f.fixed2(r.floorKw) + "," + Kilowatts(f, s.budgetKw) + ","
    + (match s.gridKw case Some(v) => Yes(v <= r.floorKw + TOLERANCE_KW) case None => "unknown")
  }

  function Lines(f: Formats, r: Report): seq<string> {
    EventLines(f, r) + RuleLines(f, r) + ResultLines(f, r)
    + seq(|r.samples|, i requires 0 <= i < |r.samples| => SampleLine(f, r, r.samples[i]))
  }

  // The signed text; it does not contain the digest.
  function BodyOf(f: Formats, r: Report): string {
    Text(Lines(f, r.(sha256 := "")))
  }

  function Csv(f: Formats, r: Report): string {
    BodyOf(f, r) + DIGEST + r.sha256 + "\n"
  }

  function DigestWith(f: Formats): Digest {
    (r: Report) => f.sha256(BodyOf(f, r))
  }

  // The digest of the predecessor, as a text names it.
  function PreviousOf(body: string): Option<string> {
    StripPrefix(Line(body, PREVIOUS_LINE), PREVIOUS)
  }

  lemma Joined(a: string, b: string)
    requires OneLine(a) && OneLine(b)
    ensures OneLine(a + b)
  {
  }

  lemma TitleStays()
    ensures OneLine(TITLE)
  {
    Joined("# Consumption reduction report ", "(BK6-22-300 Anlage 1, 7.2)");
  }

  lemma EventTimesStay(f: Formats, r: Report)
    requires Sound(f)
    ensures forall i :: 3 <= i < 6 ==> OneLine(EventLines(f, r)[i])
  {
    Joined("# start: ", TimeText(f, r, r.start));
    Joined("# end: ", TimeText(f, r, r.end));
    Joined("# duration_s: ", f.fixed0(r.end - r.start));
  }

  lemma EventLinesStay(f: Formats, r: Report)
    requires Sound(f) && OneLine(r.site)
    ensures forall i :: 0 <= i < 6 ==> OneLine(EventLines(f, r)[i])
  {
    TitleStays();
    Joined("# site: ", r.site);
    Joined("# report: ", f.decimal(r.seqNo));
    EventTimesStay(f, r);
  }

  lemma RuleLinesStay(f: Formats, r: Report)
    requires Sound(f)
    ensures forall i :: 0 <= i < 5 ==> OneLine(RuleLines(f, r)[i])
  {
    Joined("# floor_kw: ", f.fixed2(r.floorKw));
    Joined("# tolerance_kw: ", f.fixed2(TOLERANCE_KW));
    Joined("# grace_s: ", f.fixed0(r.grace));
    Joined("# emergency: ", Yes(r.emergency));
    HighestStays(f, r.maxAfterGrace);
    Joined("# max_after_grace_kw: ", Highest(f, r.maxAfterGrace));
  }

  lemma NumberStays(f: Formats, x: real)
    requires Sound(f)
    ensures OneLine(f.fixed2(x))
  {
  }

  lemma HighestStays(f: Formats, kw: Option<real>)
    requires Sound(f)
    ensures OneLine(Highest(f, kw))
  {
    match kw {
      case Some(v) => NumberStays(f, v);
      case None => assert OneLine("unknown");
    }
  }

  lemma ResultCountsStay(f: Formats, r: Report)
    requires Sound(f)
    ensures forall i :: 0 <= i < 3 ==> OneLine(ResultLines(f, r)[i])
  {
    Joined("# exceeded_s: ", f.fixed0(r.exceeded));
    Joined("# unverified_s: ", f.fixed0(r.unverified));
    Joined("# samples_dropped: ", f.decimal(r.dropped));
  }

  lemma ResultLinesStay(f: Formats, r: Report)
    requires Sound(f) && OneLine(r.previous)
    ensures forall i :: 0 <= i < 5 ==> OneLine(ResultLines(f, r)[i])
  {
    ResultCountsStay(f, r);
    Joined("# verdict: ", VerdictName(r.verdict));
    Joined(PREVIOUS, r.previous);
  }

  lemma LinesStay(f: Formats, r: Report)
    requires Sound(f) && OneLine(r.site) && OneLine(r.previous)
    ensures |Lines(f, r)| > PREVIOUS_LINE && Lines(f, r)[PREVIOUS_LINE] == PREVIOUS + r.previous
    ensures forall i :: 0 <= i <= PREVIOUS_LINE ==> OneLine(Lines(f, r)[i])
  {
    EventLinesStay(f, r);
    RuleLinesStay(f, r);
    ResultLinesStay(f, r);
    var event, rule, result, lines := EventLines(f, r), RuleLines(f, r), ResultLines(f, r), Lines(f, r);
    assert forall i :: 0 <= i < 6 ==> lines[i] == event[i];
    assert forall i :: 6 <= i < 11 ==> lines[i] == rule[i - 6];
    assert forall i :: 11 <= i < 16 ==> lines[i] == result[i - 11];
  }

  // The text of a report names its predecessor's digest, and no site name can change that.
  lemma NamesPredecessor(f: Formats, r: Report)
    requires Sound(f) && OneLine(r.site) && OneLine(r.previous)
    ensures PreviousOf(BodyOf(f, r)) == Some(r.previous)
    ensures BodyOf(f, r) != [] && BodyOf(f, r)[|BodyOf(f, r)| - 1] == '\n'
  {
    var r0 := r.(sha256 := "");
    LinesStay(f, r0);
    var lines := Lines(f, r0);
    LineOfText(lines, PREVIOUS_LINE);
    assert (PREVIOUS + r.previous)[|PREVIOUS|..] == r.previous;
    TextEndsInNewline(lines);
  }

  // ---------------------------------------------------------------- what a recorder writes

  // Consecutive numbers, each report naming the digest of the one before.
  ghost predicate Chained(reports: seq<Report>, seqNo: nat, last: string)
    decreases |reports|
  {
    reports != [] ==>
      && reports[0].seqNo == seqNo + 1 && reports[0].previous == last
      && Chained(reports[1..], seqNo + 1, reports[0].sha256)
  }

  function NumberAfter(reports: seq<Report>, seqNo: nat): nat {
    seqNo + |reports|
  }

  function DigestAfter(reports: seq<Report>, last: string): string {
    if reports == [] then last else reports[|reports| - 1].sha256
  }

  lemma {:induction false} ChainedAppend(a: seq<Report>, b: seq<Report>, seqNo: nat, last: string)
    requires Chained(a, seqNo, last) && Chained(b, NumberAfter(a, seqNo), DigestAfter(a, last))
    ensures Chained(a + b, seqNo, last)
    decreases |a|
  {
    if a == [] {
      assert a + b == b;
    } else {
      assert (a + b)[1..] == a[1..] + b;
      assert DigestAfter(a, last) == DigestAfter(a[1..], a[0].sha256);
      ChainedAppend(a[1..], b, seqNo + 1, a[0].sha256);
    }
  }

  datatype Event = Observe(x: Observation) | Take

  // The memory after some events, and the reports taken meanwhile.
  function Watch(digest: Digest, site: string, grace: real, m: Memory, events: seq<Event>): (Memory, seq<Report>) {
    if events == [] then (m, [])
    else
      var (before, taken) := Watch(digest, site, grace, m, events[..|events| - 1]);
      match events[|events| - 1]
      case Observe(x) => (Observed(digest, site, grace, before, x), taken)
      case Take => (before.(finished := []), taken + before.finished)
  }

  // Every report written so far, taken or not.
  function Written(digest: Digest, site: string, grace: real, m: Memory, events: seq<Event>): seq<Report> {
    var (after, taken) := Watch(digest, site, grace, m, events);
    taken + after.finished
  }

  function Observations(events: seq<Event>): seq<Observation> {
    if events == [] then []
    else
      Observations(events[..|events| - 1])
      + (match events[|events| - 1] case Observe(x) => [x] case Take => [])
  }

  // The cycles of the stretch of dimming that is still running.
  function Running(xs: seq<Observation>): seq<Observation> {
    if xs == [] || !xs[|xs| - 1].dimmed then [] else Running(xs[..|xs| - 1]) + [xs[|xs| - 1]]
  }

  // A stretch of dimming that has ended: its cycles, and the time of the first cycle after it.
  datatype Stretch = Stretch(cycles: seq<Observation>, end: real)

  function Ended(xs: seq<Observation>): seq<Stretch> {
    if xs == [] then []
    else
      var init, x := xs[..|xs| - 1], xs[|xs| - 1];
      Ended(init) + (if Running(init) != [] && !x.dimmed then [Stretch(Running(init), x.t)] else [])
  }

  function RunningSince(xs: seq<Observation>): Option<real> {
    if Running(xs) == [] then None else Some(Running(xs)[0].t)
  }

  lemma RunningNext(xs: seq<Observation>, x: Observation)
    ensures Running(xs + [x]) == if x.dimmed then Running(xs) + [x] else []
    ensures Ended(xs + [x])
            == Ended(xs) + (if Running(xs) != [] && !x.dimmed then [Stretch(Running(xs), x.t)] else [])
  {
    assert (xs + [x])[..|xs|] == xs;
  }

  ghost predicate Spans(r: Report, s: Stretch) {
    s.cycles != [] && r.start == s.cycles[0].t && r.end == s.end
  }

  // One report for each stretch.
  ghost predicate SpanAll(reports: seq<Report>, stretches: seq<Stretch>) {
    |reports| == |stretches| && forall i :: 0 <= i < |reports| ==> Spans(reports[i], stretches[i])
  }

  ghost predicate MonotoneClock(xs: seq<Observation>) {
    forall i, j :: 0 <= i < j < |xs| ==> xs[i].t <= xs[j].t
  }

  // A report whose times add up, whose verdict is that of its samples, and whose digest is that of
  // its text.
  ghost predicate Faithful(digest: Digest, site: string, r: Report) {
    var u := r.(sha256 := "");
    r.site == site && r.sha256 == digest(u) && AddsUp(u) && Truthful(u)
  }

  ghost predicate Steady(m: Memory, since: Option<real>, now: real) {
    && (m.open.Some? <==> since.Some?)
    && (m.open.Some? ==>
          m.open.value.start == since.value
          && Chronological(m.open.value.samples, m.open.value.start, now))
  }

  lemma ObservedStaysSteady(digest: Digest, site: string, grace: real, m: Memory, xs: seq<Observation>, now: real, x: Observation)
    requires Steady(m, RunningSince(xs), now) && (xs != [] ==> now <= x.t)
    requires xs == [] ==> m.open.None?
    ensures Steady(Observed(digest, site, grace, m, x), RunningSince(xs + [x]), x.t)
  {
    RunningNext(xs, x);
  }

  lemma ClosedIsFaithful(digest: Digest, site: string, grace: real, m: Memory, o: Recording, end: real)
    requires Chronological(o.samples, o.start, end) && grace >= 0.0
    ensures Faithful(digest, site, Closed(digest, site, grace, m, o, end))
  {
    var u := Unsigned(site, grace, m, o, end);
    assert Closed(digest, site, grace, m, o, end).(sha256 := "") == u by {
      assert u.(sha256 := "") == u;
    }
    ReportPartitionsTheEvent(site, grace, m, o, end);
    VerdictIsExact(site, grace, m, o, end);
  }

  // What holds of everything a recorder has written since it started with m.
  ghost predicate Sure(digest: Digest, site: string, m: Memory, xs: seq<Observation>, after: Memory, written: seq<Report>) {
    && Chained(written, m.seqNo, m.last)
    && after.seqNo == NumberAfter(written, m.seqNo)
    && after.last == DigestAfter(written, m.last)
    && SpanAll(written, Ended(xs))
    && (forall r :: r in written ==> Faithful(digest, site, r))
  }

  // One more report.
  lemma OneMoreReport(digest: Digest, site: string, m: Memory, xs: seq<Observation>, before: Memory,
                      written: seq<Report>, x: Observation, r: Report, after: Memory)
    requires Sure(digest, site, m, xs, before, written)
    requires Faithful(digest, site, r) && r.seqNo == before.seqNo + 1 && r.previous == before.last
    requires after.seqNo == r.seqNo && after.last == r.sha256
    requires !x.dimmed && RunningSince(xs) == Some(r.start) && x.t == r.end
    ensures Sure(digest, site, m, xs + [x], after, written + [r])
  {
    RunningNext(xs, x);
    assert Chained([r], before.seqNo, before.last) by {
      assert [r][1..] == [];
    }
    ChainedAppend(written, [r], m.seqNo, m.last);
  }

  // No report.
  lemma NoReport(digest: Digest, site: string, m: Memory, xs: seq<Observation>, before: Memory,
                 written: seq<Report>, x: Observation, after: Memory)
    requires Sure(digest, site, m, xs, before, written)
    requires after.seqNo == before.seqNo && after.last == before.last
    requires x.dimmed || RunningSince(xs).None?
    ensures Sure(digest, site, m, xs + [x], after, written)
  {
    RunningNext(xs, x);
    assert Ended(xs) + [] == Ended(xs);
  }

  function LastTime(xs: seq<Observation>): real {
    if xs == [] then 0.0 else xs[|xs| - 1].t
  }

  lemma ObservingIsSure(digest: Digest, site: string, grace: real, m: Memory, xs: seq<Observation>, before: Memory,
                        taken: seq<Report>, x: Observation)
    requires grace >= 0.0 && Sure(digest, site, m, xs, before, taken + before.finished)
    requires Steady(before, RunningSince(xs), LastTime(xs)) && (xs != [] ==> LastTime(xs) <= x.t)
    ensures var after := Observed(digest, site, grace, before, x);
      && Sure(digest, site, m, xs + [x], after, taken + after.finished)
      && Steady(after, RunningSince(xs + [x]), x.t)
  {
    ObservedStaysSteady(digest, site, grace, before, xs, LastTime(xs), x);
    var after := Observed(digest, site, grace, before, x);
    var written := taken + before.finished;
    if before.open.Some? && !x.dimmed {
      var o := before.open.value;
      var r := Closed(digest, site, grace, before, o, x.t);
      ClosedIsFaithful(digest, site, grace, before, o, x.t);
      OneMoreReport(digest, site, m, xs, before, written, x, r, after);
      assert taken + (before.finished + [r]) == written + [r];
    } else {
      NoReport(digest, site, m, xs, before, written, x, after);
    }
  }

  // Whatever a recorder observes, and whenever its reports are taken: the reports written are
  // numbered consecutively from where it started, each names the digest of the one before, there is
  // exactly one for every stretch of dimming that has ended, and each is faithful.
  lemma {:induction false} EveryReportIsSure(digest: Digest, site: string, grace: real, m: Memory, events: seq<Event>)
    requires m.open.None? && m.finished == [] && grace >= 0.0
    requires MonotoneClock(Observations(events))
    ensures var (after, _) := Watch(digest, site, grace, m, events);
      var xs := Observations(events);
      && Sure(digest, site, m, xs, after, Written(digest, site, grace, m, events))
      && Steady(after, RunningSince(xs), LastTime(xs))
    decreases |events|
  {
    if events != [] {
      var init, e := events[..|events| - 1], events[|events| - 1];
      var xs := Observations(init);
      PrefixMonotone(events);
      EveryReportIsSure(digest, site, grace, m, init);
      var (before, taken) := Watch(digest, site, grace, m, init);
      match e {
        case Observe(x) =>
          assert xs != [] ==> xs[|xs| - 1] in xs;
          ObservingIsSure(digest, site, grace, m, xs, before, taken, x);
        case Take =>
          assert xs + [] == xs;
          assert (taken + before.finished) + [] == taken + before.finished;
      }
    }
  }

  lemma PrefixMonotone(events: seq<Event>)
    requires events != [] && MonotoneClock(Observations(events))
    ensures MonotoneClock(Observations(events[..|events| - 1]))
    ensures events[|events| - 1].Observe? ==>
      forall y :: y in Observations(events[..|events| - 1]) ==> y.t <= events[|events| - 1].x.t
  {
    var xs, all := Observations(events[..|events| - 1]), Observations(events);
    assert forall i :: 0 <= i < |xs| ==> all[i] == xs[i];
    if events[|events| - 1].Observe? {
      assert all == xs + [events[|events| - 1].x];
    }
  }

  // A recorder resumed after a restart continues the chain of the one before.
  lemma ResumedChainContinues(digest: Digest, site: string, grace: real, m: Memory, first: seq<Event>,
                              epochMs: int, second: seq<Event>)
    requires m.open.None? && m.finished == [] && grace >= 0.0
    requires MonotoneClock(Observations(first)) && MonotoneClock(Observations(second))
    ensures var (after, _) := Watch(digest, site, grace, m, first);
      var resumed := Memory(epochMs, None, after.seqNo, after.last, []);
      Chained(Written(digest, site, grace, m, first) + Written(digest, site, grace, resumed, second), m.seqNo, m.last)
  {
    EveryReportIsSure(digest, site, grace, m, first);
    var (after, _) := Watch(digest, site, grace, m, first);
    var resumed := Memory(epochMs, None, after.seqNo, after.last, []);
    EveryReportIsSure(digest, site, grace, resumed, second);
    ChainedAppend(Written(digest, site, grace, m, first), Written(digest, site, grace, resumed, second), m.seqNo, m.last);
  }

  // Everything written in both lives is faithful.
  lemma ResumedReportsAreFaithful(digest: Digest, site: string, grace: real, m: Memory, first: seq<Event>,
                                  resumed: Memory, second: seq<Event>)
    requires m.open.None? && m.finished == [] && resumed.open.None? && resumed.finished == [] && grace >= 0.0
    requires MonotoneClock(Observations(first)) && MonotoneClock(Observations(second))
    ensures forall r :: r in Written(digest, site, grace, m, first) + Written(digest, site, grace, resumed, second)
              ==> Faithful(digest, site, r)
  {
    EveryReportIsSure(digest, site, grace, m, first);
    EveryReportIsSure(digest, site, grace, resumed, second);
  }

  // ---------------------------------------------------------------- the files

  // Texts each of which names the digest of the one before (the first names `last`).
  ghost predicate Links(hash: string -> string, names: string -> Option<string>, bodies: seq<string>, last: string)
    decreases |bodies|
  {
    bodies != [] ==>
      && names(bodies[0]) == Some(last)
      && Links(hash, names, bodies[1..], hash(bodies[0]))
  }

  function Bodies(csvs: seq<string>): seq<string> {
    seq(|csvs|, i requires 0 <= i < |csvs| => Body(csvs[i]))
  }

  // Files that verify one by one and form a chain.
  ghost predicate VerifiedChain(f: Formats, csvs: seq<string>, last: string) {
    && (forall i :: 0 <= i < |csvs| ==> VerifyCsv(f, csvs[i]))
    && Links(f.sha256, PreviousOf, Bodies(csvs), last)
  }

  function LastDigest(hash: string -> string, bodies: seq<string>, last: string): string {
    if bodies == [] then last else hash(bodies[|bodies| - 1])
  }

  function Csvs(f: Formats, reports: seq<Report>): seq<string> {
    seq(|reports|, i requires 0 <= i < |reports| => Csv(f, reports[i]))
  }

  lemma CsvVerifies(f: Formats, r: Report)
    requires Sound(f) && OneLine(r.site) && OneLine(r.previous)
    requires r.sha256 == f.sha256(BodyOf(f, r))
    ensures VerifyCsv(f, Csv(f, r)) && Body(Csv(f, r)) == BodyOf(f, r)
    ensures PreviousOf(BodyOf(f, r)) == Some(r.previous)
    ensures OneLine(r.sha256)
  {
    NamesPredecessor(f, r);
    SignedVerifies(f, BodyOf(f, r));
    assert Csv(f, r) == Signed(f, BodyOf(f, r));
    assert OneWord(f.sha256(BodyOf(f, r)));
  }

  lemma FaithfulDigest(f: Formats, site: string, r: Report)
    requires Faithful(DigestWith(f), site, r)
    ensures r.sha256 == f.sha256(BodyOf(f, r))
  {
    var u := r.(sha256 := "");
    assert u.(sha256 := "") == u;
    assert DigestWith(f)(u) == f.sha256(BodyOf(f, u));
    assert BodyOf(f, u) == BodyOf(f, r);
  }

  function BodiesOf(f: Formats, reports: seq<Report>): seq<string> {
    seq(|reports|, i requires 0 <= i < |reports| => BodyOf(f, reports[i]))
  }

  lemma {:induction false} TextsFormChain(f: Formats, reports: seq<Report>, seqNo: nat, last: string)
    requires Chained(reports, seqNo, last)
    requires forall r :: r in reports ==> r.sha256 == f.sha256(BodyOf(f, r)) && PreviousOf(BodyOf(f, r)) == Some(r.previous)
    ensures Links(f.sha256, PreviousOf, BodiesOf(f, reports), last)
    decreases |reports|
  {
    if reports != [] {
      var r, rest := reports[0], reports[1..];
      assert r in reports && forall s :: s in rest ==> s in reports;
      TextsFormChain(f, rest, seqNo + 1, r.sha256);
      BodiesOfRest(f, reports);
    }
  }

  lemma BodiesOfRest(f: Formats, reports: seq<Report>)
    requires reports != []
    ensures BodiesOf(f, reports)[0] == BodyOf(f, reports[0])
    ensures BodiesOf(f, reports)[1..] == BodiesOf(f, reports[1..])
  {
  }

  lemma {:induction false} PreviousAreLines(reports: seq<Report>, seqNo: nat, last: string)
    requires Chained(reports, seqNo, last) && OneLine(last)
    requires forall r :: r in reports ==> OneLine(r.sha256)
    ensures forall r :: r in reports ==> OneLine(r.previous)
    decreases |reports|
  {
    if reports != [] {
      assert reports[0] in reports;
      PreviousAreLines(reports[1..], seqNo + 1, reports[0].sha256);
      assert reports == [reports[0]] + reports[1..];
    }
  }

  // The files of a recorded chain verify as a chain.
  lemma RecordedFilesVerify(f: Formats, site: string, reports: seq<Report>, seqNo: nat, last: string)
    requires Sound(f) && OneLine(site) && OneLine(last)
    requires Chained(reports, seqNo, last)
    requires forall r :: r in reports ==> Faithful(DigestWith(f), site, r)
    ensures VerifiedChain(f, Csvs(f, reports), last)
  {
    DigestsAreLines(f, site, reports);
    PreviousAreLines(reports, seqNo, last);
    forall r | r in reports
      ensures VerifyCsv(f, Csv(f, r)) && Body(Csv(f, r)) == BodyOf(f, r)
      ensures PreviousOf(BodyOf(f, r)) == Some(r.previous)
    {
      CsvVerifies(f, r);
    }
    TextsFormChain(f, reports, seqNo, last);
    BodiesAre(f, reports);
  }

  lemma DigestsAreLines(f: Formats, site: string, reports: seq<Report>)
    requires Sound(f) && forall r :: r in reports ==> Faithful(DigestWith(f), site, r)
    ensures forall r :: r in reports ==> r.sha256 == f.sha256(BodyOf(f, r)) && OneLine(r.sha256)
  {
    forall r | r in reports
      ensures r.sha256 == f.sha256(BodyOf(f, r)) && OneLine(r.sha256)
    {
      FaithfulDigest(f, site, r);
      WordIsLine(f, BodyOf(f, r));
    }
  }

  lemma BodiesAre(f: Formats, reports: seq<Report>)
    requires forall r :: r in reports ==> VerifyCsv(f, Csv(f, r)) && Body(Csv(f, r)) == BodyOf(f, r)
    ensures Bodies(Csvs(f, reports)) == BodiesOf(f, reports)
    ensures forall i :: 0 <= i < |reports| ==> VerifyCsv(f, Csvs(f, reports)[i])
  {
    forall i | 0 <= i < |reports|
      ensures Body(Csvs(f, reports)[i]) == BodiesOf(f, reports)[i] && VerifyCsv(f, Csvs(f, reports)[i])
    {
      assert reports[i] in reports;
    }
  }

  lemma WordIsLine(f: Formats, text: string)
    requires Sound(f)
    ensures OneLine(f.sha256(text))
  {
    assert OneWord(f.sha256(text));
  }

  // From the first dimming on, everything a gateway with a one-line site name writes verifies.
  lemma EveryRunVerifies(f: Formats, site: string, grace: real, epochMs: int, events: seq<Event>)
    requires Sound(f) && OneLine(site) && grace >= 0.0
    requires MonotoneClock(Observations(events))
    ensures var m := Memory(epochMs, None, 0, GENESIS, []);
      VerifiedChain(f, Csvs(f, Written(DigestWith(f), site, grace, m, events)), GENESIS)
  {
    var m := Memory(epochMs, None, 0, GENESIS, []);
    EveryReportIsSure(DigestWith(f), site, grace, m, events);
    RecordedFilesVerify(f, site, Written(DigestWith(f), site, grace, m, events), 0, GENESIS);
  }

  // And so does everything it writes in two lives, where the second one resumes the first.
  lemma ResumedFilesVerify(f: Formats, site: string, grace: real, epochMs: int, first: seq<Event>, epochMs': int,
                           second: seq<Event>)
    requires Sound(f) && OneLine(site) && grace >= 0.0
    requires MonotoneClock(Observations(first)) && MonotoneClock(Observations(second))
    ensures var m := Memory(epochMs, None, 0, GENESIS, []);
      var (after, _) := Watch(DigestWith(f), site, grace, m, first);
      var resumed := Memory(epochMs', None, after.seqNo, after.last, []);
      VerifiedChain(f, Csvs(f, Written(DigestWith(f), site, grace, m, first)
                               + Written(DigestWith(f), site, grace, resumed, second)), GENESIS)
  {
    var m := Memory(epochMs, None, 0, GENESIS, []);
    var (after, _) := Watch(DigestWith(f), site, grace, m, first);
    var resumed := Memory(epochMs', None, after.seqNo, after.last, []);
    ResumedChainContinues(DigestWith(f), site, grace, m, first, epochMs', second);
    ResumedReportsAreFaithful(DigestWith(f), site, grace, m, first, resumed, second);
    RecordedFilesVerify(f, site, Written(DigestWith(f), site, grace, m, first)
                                 + Written(DigestWith(f), site, grace, resumed, second), 0, GENESIS);
  }

  lemma {:induction false} LinksPrefix(hash: string -> string, names: string -> Option<string>, bodies: seq<string>, last: string)
    requires bodies != [] && Links(hash, names, bodies, last)
    ensures Links(hash, names, bodies[..|bodies| - 1], last)
    ensures names(bodies[|bodies| - 1]) == Some(LastDigest(hash, bodies[..|bodies| - 1], last))
    decreases |bodies|
  {
    if |bodies| > 1 {
      LinksPrefix(hash, names, bodies[1..], hash(bodies[0]));
      assert bodies[1..][..|bodies| - 2] == bodies[..|bodies| - 1][1..];
    }
  }

  // With a collision-free hash, the last digest pins all texts of a chain.
  lemma {:induction false} LastDigestPinsTexts(hash: string -> string, names: string -> Option<string>,
                                               a: seq<string>, b: seq<string>, lastA: string, lastB: string)
    requires forall s: string, t: string :: hash(s) == hash(t) ==> s == t
    requires |a| == |b| && Links(hash, names, a, lastA) && Links(hash, names, b, lastB)
    requires LastDigest(hash, a, lastA) == LastDigest(hash, b, lastB)
    ensures a == b && lastA == lastB
    decreases |a|
  {
    if a != [] {
      var n := |a| - 1;
      assert a[n] == b[n];
      LinksPrefix(hash, names, a, lastA);
      LinksPrefix(hash, names, b, lastB);
      LastDigestPinsTexts(hash, names, a[..n], b[..n], lastA, lastB);
      assert a == a[..n] + [a[n]] && b == b[..n] + [b[n]];
    }
  }

  lemma LastClaim(f: Formats, csvs: seq<string>, last: string)
    requires csvs != [] && VerifiedChain(f, csvs, last)
    ensures Claimed(csvs[|csvs| - 1]) == Some(LastDigest(f.sha256, Bodies(csvs), last))
  {
    assert VerifyCsv(f, csvs[|csvs| - 1]);
    assert Bodies(csvs)[|csvs| - 1] == Body(csvs[|csvs| - 1]);
  }

  // The last digest pins the whole history: two verified chains of the same length whose last files
  // claim the same digest agree file by file in everything above the digest line, and in where they
  // started.
  lemma LastDigestPinsHistory(f: Formats, a: seq<string>, b: seq<string>, lastA: string, lastB: string)
    requires Sound(f) && |a| == |b| > 0
    requires VerifiedChain(f, a, lastA) && VerifiedChain(f, b, lastB)
    requires Claimed(a[|a| - 1]) == Claimed(b[|b| - 1])
    ensures Bodies(a) == Bodies(b) && lastA == lastB
  {
    LastClaim(f, a, lastA);
    LastClaim(f, b, lastB);
    LastDigestPinsTexts(f.sha256, PreviousOf, Bodies(a), Bodies(b), lastA, lastB);
  }

  // A file that is exactly what is written for its body.
  ghost predicate AsWritten(f: Formats, csvs: seq<string>) {
    forall i :: 0 <= i < |csvs| ==> csvs[i] == Signed(f, Body(csvs[i]))
  }

  // And pins the files themselves exactly as far as they are as written: white space around a digest is not signed.
  lemma LastDigestPinsFiles(f: Formats, a: seq<string>, b: seq<string>, lastA: string, lastB: string)
    requires Sound(f) && |a| == |b| > 0 && AsWritten(f, a)
    requires VerifiedChain(f, a, lastA) && VerifiedChain(f, b, lastB)
    requires Claimed(a[|a| - 1]) == Claimed(b[|b| - 1])
    ensures a == b <==> AsWritten(f, b)
  {
    LastDigestPinsHistory(f, a, b, lastA, lastB);
    if AsWritten(f, b) {
      forall i | 0 <= i < |a|
        ensures a[i] == b[i]
      {
        assert Bodies(a)[i] == Bodies(b)[i];
      }
    }
  }

  // As recorded files are.
  lemma RecordedFilesAreAsWritten(f: Formats, site: string, reports: seq<Report>, seqNo: nat, last: string)
    requires Sound(f) && OneLine(site) && OneLine(last) && Chained(reports, seqNo, last)
    requires forall r :: r in reports ==> Faithful(DigestWith(f), site, r)
    ensures AsWritten(f, Csvs(f, reports))
  {
    var csvs := Csvs(f, reports);
    DigestsAreLines(f, site, reports);
    PreviousAreLines(reports, seqNo, last);
    forall i | 0 <= i < |csvs|
      ensures csvs[i] == Signed(f, Body(csvs[i]))
    {
      assert reports[i] in reports;
      FaithfulDigest(f, site, reports[i]);
      CsvVerifies(f, reports[i]);
    }
  }
}
