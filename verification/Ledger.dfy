// The link layer counted without wrap-around: the reference machine the 15-bit session refines.
// It numbers frames by their position in the whole history, and keeps the queue as a suffix of
// everything ever submitted.
module Ledgers {
  import opened Basics
  import opened Apci
  import opened Sessions

  datatype Frame = IFrame(ns: nat, nr: nat, asdu: Payload) | SFrame(nr: nat) | UFrame(f: UFunction)

  datatype Item = Put(frame: Frame) | Got(asdu: Payload) | Begun | Ended

  datatype Ledger = Ledger(
    started: bool,
    submitted: seq<Payload>,      // every ASDU ever handed to send_raw
    waiting: nat,                 // how many of the latest submissions are still queued
    sent: seq<nat>,               // submission number of the n-th I-frame transmitted
    acked: nat,                   // I-frames the peer has acknowledged
    times: seq<Instant>,          // send times of the others
    received: seq<Payload>,       // ASDU of the n-th I-frame accepted
    confirmed: nat,               // how many of those the peer has seen acknowledged
    rxSince: Option<Instant>,
    lastRx: Instant,
    testSent: Option<Instant>)
  {
    predicate Shape() {
      && waiting <= |submitted|
      && acked <= |sent|
      && |times| == |sent| - acked
      && confirmed <= |received|
    }

    // The t2 clock runs exactly while something received is unconfirmed; I-frames carry
    // different submissions in the order they were made, none of them still queued.
    ghost predicate Valid() {
      && Shape()
      && (rxSince.Some? <==> confirmed < |received|)
      && (forall i :: 0 <= i < |sent| ==> sent[i] < |submitted| - waiting)
      && (forall i, j :: 0 <= i < j < |sent| ==> sent[i] < sent[j])
    }

    function Queue(): seq<Payload>
      requires waiting <= |submitted|
    {
      submitted[|submitted| - waiting..]
    }
  }

  datatype Answer = Answer(ledger: Ledger, out: seq<Item>, close: Option<Close>)
  {
    function After(before: seq<Item>): Answer {
      this.(out := before + out)
    }
  }

  function Opening(now: Instant): Ledger {
    Ledger(false, [], 0, [], 0, [], [], 0, None, now, None)
  }

  function Confirm(l: Ledger): Ledger {
    l.(confirmed := |l.received|, rxSince := None)
  }

  function Supervise(l: Ledger): Answer {
    Answer(Confirm(l), [Put(SFrame(|l.received|))], None)
  }

  function TakeNext(l: Ledger, now: Instant): Ledger
    requires 0 < l.waiting <= |l.submitted|
  {
    Confirm(l.(waiting := l.waiting - 1, sent := l.sent + [|l.submitted| - l.waiting], times := l.times + [now]))
  }

  function Pump(cfg: Config, l: Ledger, now: Instant): Answer
    requires l.waiting <= |l.submitted|
    decreases l.waiting
  {
    if l.started && |l.times| < cfg.k && l.waiting > 0 then
      Pump(cfg, TakeNext(l, now), now)
      .After([Put(IFrame(|l.sent|, |l.received|, l.submitted[|l.submitted| - l.waiting]))])
    else
      Answer(l, [], None)
  }

  function Submit(cfg: Config, l: Ledger, asdu: Payload, now: Instant): Answer
    requires l.waiting <= |l.submitted|
  {
    var kept := if Full(cfg, l) then l.waiting - 1 else l.waiting;
    Pump(cfg, l.(submitted := l.submitted + [asdu], waiting := kept + 1), now)
  }

  // An N(R) is accepted when it names a position between the acknowledged and the sent frames.
  function Settle(l: Ledger, nr: nat): Answer
    requires l.Shape()
  {
    if l.acked <= nr <= |l.sent| then
      Answer(l.(acked := nr, times := l.times[nr - l.acked..]), [], None)
    else
      Answer(l, [], Some(BadAcknowledge(nr % SEQ_MODULO)))
  }

  function Take(cfg: Config, l: Ledger, asdu: Payload, now: Instant): Answer
    requires l.confirmed <= |l.received|
  {
    var l1 := l.(rxSince := Some(l.rxSince.UnwrapOr(now)));
    if |l1.received| - l1.confirmed >= cfg.w then Supervise(l1).After([Got(asdu)])
    else Answer(l1, [Got(asdu)], None)
  }

  function OnIFrame(cfg: Config, l: Ledger, ns: nat, nr: nat, asdu: Payload, now: Instant): Answer
    requires l.Shape()
  {
    if ns != |l.received| then
      Answer(l, [], Some(SequenceError(|l.received| % SEQ_MODULO, ns % SEQ_MODULO)))
    else
      var settled := Settle(l.(received := l.received + [asdu]), nr);
      if settled.close.Some? then settled else Take(cfg, settled.ledger, asdu, now)
  }

  function OnUFrame(l: Ledger, f: UFunction): Answer {
    match f
    case StartDtAct =>
      Answer(l.(started := true), [Put(UFrame(StartDtCon))] + if l.started then [] else [Begun], None)
    case StopDtAct =>
      var first := if |l.received| != l.confirmed then Supervise(l) else Answer(l, [], None);
      Answer(first.ledger.(started := false),
             first.out + [Put(UFrame(StopDtCon))] + (if l.started then [Ended] else []),
             None)
    case TestFrAct => Answer(l, [Put(UFrame(TestFrCon))], None)
    case TestFrCon => Answer(l.(testSent := None), [], None)
    case StartDtCon => Answer(l, [], None)
    case StopDtCon => Answer(l, [], None)
  }

  function Handle(cfg: Config, l: Ledger, frame: Frame, now: Instant): Answer
    requires l.Shape()
  {
    match frame
    case IFrame(ns, nr, asdu) => OnIFrame(cfg, l, ns, nr, asdu, now)
    case SFrame(nr) => Settle(l, nr)
    case UFrame(f) => OnUFrame(l, f)
  }

  function OnFrame(cfg: Config, l: Ledger, frame: Frame, now: Instant): Answer
    requires l.Shape()
  {
    var handled := Handle(cfg, l.(lastRx := now), frame, now);
    if handled.close.Some? then handled
    else Pump(cfg, handled.ledger, now).After(handled.out)
  }

  function OnTime(cfg: Config, l: Ledger, now: Instant): Answer {
    if l.times != [] && Elapsed(now, l.times[0]) >= cfg.t1 then Answer(l, [], Some(AckTimeout))
    else if l.testSent.Some? && Elapsed(now, l.testSent.value) >= cfg.t1 then Answer(l, [], Some(TestTimeout))
    else
      var first := if l.rxSince.Some? && Elapsed(now, l.rxSince.value) >= cfg.t2
                   then Supervise(l) else Answer(l, [], None);
      if l.testSent.None? && Elapsed(now, l.lastRx) >= cfg.t3 then
        Answer(first.ledger.(testSent := Some(now)), first.out + [Put(UFrame(TestFrAct))], None)
      else first
  }

  // ---------------------------------------------------------------- what every step keeps

  // Window invariants that hold between steps of an open connection.
  ghost predicate Windows(cfg: Config, l: Ledger) {
    && |l.times| <= cfg.k
    && |l.received| - l.confirmed <= (if cfg.w == 0 then 0 else cfg.w - 1)
    && (l.waiting > 0 ==> !l.started || |l.times| == cfg.k)
  }

  ghost predicate Good(cfg: Config, l: Ledger) {
    l.Valid() && Windows(cfg, l)
  }

  // Submission j is neither sent nor queued.
  predicate Lost(l: Ledger, j: nat) {
    j < |l.submitted| - l.waiting && j !in l.sent
  }

  // One more submission drops the oldest queued one.
  predicate Full(cfg: Config, l: Ledger) {
    l.waiting >= cfg.maxQueue && l.waiting > 0
  }

  // The frames among the outputs.
  function Frames(out: seq<Item>): seq<Frame> {
    if out == [] then []
    else (if out[0].Put? then [out[0].frame] else []) + Frames(out[1..])
  }

  // The ASDUs handed to the application.
  function Deliveries(out: seq<Item>): seq<Payload> {
    if out == [] then []
    else (if out[0].Got? then [out[0].asdu] else []) + Deliveries(out[1..])
  }

  // The I-frames carry the submissions l.sent[from..] under the consecutive numbers from, from + 1, ...
  // and every N(R) is nr.
  ghost predicate Numbered(frames: seq<Frame>, l: Ledger, from: nat, nr: nat)
    requires l.Valid()
    decreases |frames|
  {
    if frames == [] then from == |l.sent|
    else
      match frames[0]
      case IFrame(ns, r, asdu) =>
        && ns == from < |l.sent| && r == nr && asdu == l.submitted[l.sent[from]]
        && Numbered(frames[1..], l, from + 1, nr)
      case SFrame(r) => r == nr && Numbered(frames[1..], l, from, nr)
      case UFrame(_) => Numbered(frames[1..], l, from, nr)
  }

  // A step only ever appends to the histories.
  ghost predicate Grows(l: Ledger, m: Ledger) {
    && l.submitted <= m.submitted
    && l.sent <= m.sent
    && l.received <= m.received
    && l.acked <= m.acked
    && l.confirmed <= m.confirmed
  }

  ghost predicate StepOk(cfg: Config, l: Ledger, a: Answer)
    requires l.Valid()
  {
    && Grows(l, a.ledger)
    && (a.close.None? ==>
         && Good(cfg, a.ledger)
         && Numbered(Frames(a.out), a.ledger, |l.sent|, |a.ledger.received|)
         && a.ledger.received == l.received + Deliveries(a.out))
    && (a.close.Some? ==> a.out == [])
  }

  lemma TakeNextIsValid(l: Ledger, now: Instant)
    requires l.Valid() && l.waiting > 0
    ensures TakeNext(l, now).Valid()
  {
  }

  lemma {:induction false} PumpAdvances(cfg: Config, l: Ledger, now: Instant)
    requires l.Valid() && |l.times| <= cfg.k
    ensures var a := Pump(cfg, l, now);
      && a.ledger.Valid() && Grows(l, a.ledger) && |a.ledger.times| <= cfg.k
      && a.ledger.submitted == l.submitted && a.ledger.received == l.received && a.ledger.acked == l.acked
      && a.close.None?
      && a.ledger.confirmed in {l.confirmed, |l.received|}
      && (a.ledger.waiting > 0 ==> !l.started || |a.ledger.times| == cfg.k)
      && a.ledger.started == l.started
    decreases l.waiting
  {
    if l.started && |l.times| < cfg.k && l.waiting > 0 {
      TakeNextIsValid(l, now);
      PumpAdvances(cfg, TakeNext(l, now), now);
    }
  }

  lemma {:induction false} PumpNumbers(cfg: Config, l: Ledger, now: Instant)
    requires l.Valid() && |l.times| <= cfg.k
    ensures var a := Pump(cfg, l, now);
      && a.ledger.Valid() && Numbered(Frames(a.out), a.ledger, |l.sent|, |l.received|)
      && Deliveries(a.out) == []
    decreases l.waiting
  {
    PumpAdvances(cfg, l, now);
    if l.started && |l.times| < cfg.k && l.waiting > 0 {
      var next := TakeNext(l, now);
      TakeNextIsValid(l, now);
      PumpNumbers(cfg, next, now);
      PumpAdvances(cfg, next, now);
      FirstOfPump(cfg, l, now);
      var m := Pump(cfg, next, now).ledger;
      FirstIsNumbered(l, next, m, Frames(Pump(cfg, next, now).out), now);
    }
  }

  lemma FirstIsNumbered(l: Ledger, next: Ledger, m: Ledger, later: seq<Frame>, now: Instant)
    requires l.Valid() && l.waiting > 0 && next == TakeNext(l, now) && m.Valid() && Grows(next, m)
    requires m.submitted == l.submitted && Numbered(later, m, |l.sent| + 1, |l.received|)
    ensures Numbered([IFrame(|l.sent|, |l.received|, l.submitted[|l.submitted| - l.waiting])] + later, m, |l.sent|,
                     |l.received|)
  {
    var frames := [IFrame(|l.sent|, |l.received|, l.submitted[|l.submitted| - l.waiting])] + later;
    assert frames[1..] == later;
    assert next.sent[|l.sent|] == |l.submitted| - l.waiting;
  }

  lemma FirstOfPump(cfg: Config, l: Ledger, now: Instant)
    requires l.waiting <= |l.submitted| && l.started && |l.times| < cfg.k && l.waiting > 0
    ensures var a, later := Pump(cfg, l, now), Pump(cfg, TakeNext(l, now), now);
      && a.ledger == later.ledger && Deliveries(a.out) == Deliveries(later.out)
      && Frames(a.out)
         == [IFrame(|l.sent|, |l.received|, l.submitted[|l.submitted| - l.waiting])] + Frames(later.out)
      && Frames(a.out)[1..] == Frames(later.out)
  {
    var later := Pump(cfg, TakeNext(l, now), now);
    var frame := IFrame(|l.sent|, |l.received|, l.submitted[|l.submitted| - l.waiting]);
    assert Pump(cfg, l, now) == later.After([Put(frame)]);
    FramesFirst(Put(frame), later.out);
    assert [] + Deliveries(later.out) == Deliveries(later.out);
  }

  lemma PumpKeeps(cfg: Config, l: Ledger, now: Instant)
    requires l.Valid() && |l.times| <= cfg.k
    ensures var a := Pump(cfg, l, now);
      && a.ledger.Valid() && Grows(l, a.ledger) && |a.ledger.times| <= cfg.k
      && a.ledger.submitted == l.submitted && a.ledger.received == l.received && a.ledger.acked == l.acked
      && a.close.None?
      && a.ledger.confirmed in {l.confirmed, |l.received|}
      && (a.ledger.waiting > 0 ==> !l.started || |a.ledger.times| == cfg.k)
      && a.ledger.started == l.started
      && Numbered(Frames(a.out), a.ledger, |l.sent|, |l.received|)
      && Deliveries(a.out) == []
  {
    PumpAdvances(cfg, l, now);
    PumpNumbers(cfg, l, now);
  }

  lemma Regroup<T>(a: seq<T>, b: seq<T>, c: seq<T>)
    ensures (a + b) + c == a + (b + c)
  {
  }

  lemma FramesFirst(x: Item, rest: seq<Item>)
    ensures Frames([x] + rest) == (if x.Put? then [x.frame] else []) + Frames(rest)
    ensures Deliveries([x] + rest) == (if x.Got? then [x.asdu] else []) + Deliveries(rest)
  {
    assert ([x] + rest)[1..] == rest;
  }

  lemma {:induction false} FramesAppend(a: seq<Item>, b: seq<Item>)
    ensures Frames(a + b) == Frames(a) + Frames(b)
    decreases |a|
  {
    if a == [] {
      assert a + b == b;
    } else {
      var x, rest := a[0], a[1..];
      FramesAppend(rest, b);
      assert a == [x] + rest;
      Regroup([x], rest, b);
      FramesFirst(x, rest);
      FramesFirst(x, rest + b);
      Regroup(if x.Put? then [x.frame] else [], Frames(rest), Frames(b));
    }
  }

  lemma {:induction false} DeliveriesAppend(a: seq<Item>, b: seq<Item>)
    ensures Deliveries(a + b) == Deliveries(a) + Deliveries(b)
    decreases |a|
  {
    if a == [] {
      assert a + b == b;
    } else {
      var x, rest := a[0], a[1..];
      DeliveriesAppend(rest, b);
      assert a == [x] + rest;
      Regroup([x], rest, b);
      FramesFirst(x, rest);
      FramesFirst(x, rest + b);
      Regroup(if x.Got? then [x.asdu] else [], Deliveries(rest), Deliveries(b));
    }
  }

  // Putting unnumbered or supervisory frames first leaves the numbering of the I-frames alone.
  lemma {:induction false} NumberedAfter(first: seq<Frame>, frames: seq<Frame>, l: Ledger, from: nat, nr: nat)
    requires l.Valid()
    requires Numbered(frames, l, from, nr)
    requires forall f :: f in first ==> f.UFrame? || f == SFrame(nr)
    ensures Numbered(first + frames, l, from, nr)
    decreases |first|
  {
    if first == [] {
      assert first + frames == frames;
    } else {
      assert first[0] in first;
      assert (first + frames)[1..] == first[1..] + frames;
      NumberedAfter(first[1..], frames, l, from, nr);
    }
  }

  lemma StepAfterHandling(cfg: Config, l: Ledger, handled: Answer, now: Instant)
    requires l.Valid()
    requires handled.ledger.Valid() && Grows(l, handled.ledger)
    requires |handled.ledger.times| <= cfg.k
    requires |handled.ledger.received| - handled.ledger.confirmed <= (if cfg.w == 0 then 0 else cfg.w - 1)
    requires handled.ledger.sent == l.sent
    requires handled.ledger.received == l.received + Deliveries(handled.out)
    requires forall f :: f in Frames(handled.out) ==> f.UFrame? || f == SFrame(|handled.ledger.received|)
    ensures StepOk(cfg, l, Pump(cfg, handled.ledger, now).After(handled.out))
  {
    var pumped := Pump(cfg, handled.ledger, now);
    PumpKeeps(cfg, handled.ledger, now);
    FramesAppend(handled.out, pumped.out);
    DeliveriesAppend(handled.out, pumped.out);
    NumberedAfter(Frames(handled.out), Frames(pumped.out), pumped.ledger, |l.sent|, |pumped.ledger.received|);
    assert Deliveries(handled.out) + [] == Deliveries(handled.out);
  }

  lemma {:induction false} PumpLosesNothing(cfg: Config, l: Ledger, now: Instant, j: nat)
    requires l.waiting <= |l.submitted|
    ensures Lost(Pump(cfg, l, now).ledger, j) <==> Lost(l, j)
    decreases l.waiting
  {
    if l.started && |l.times| < cfg.k && l.waiting > 0 {
      PumpLosesNothing(cfg, TakeNext(l, now), now, j);
    }
  }

  // The oldest queued submission is lost where the queue is full, and nothing else is.
  lemma SubmitLoses(cfg: Config, l: Ledger, asdu: Payload, now: Instant, j: nat)
    requires l.Valid()
    ensures Lost(Submit(cfg, l, asdu, now).ledger, j)
            <==> Lost(l, j) || (Full(cfg, l) && j == |l.submitted| - l.waiting)
  {
    var kept := if Full(cfg, l) then l.waiting - 1 else l.waiting;
    PumpLosesNothing(cfg, l.(submitted := l.submitted + [asdu], waiting := kept + 1), now, j);
  }

  lemma SubmitKeeps(cfg: Config, l: Ledger, asdu: Payload, now: Instant)
    requires Good(cfg, l)
    ensures var a := Submit(cfg, l, asdu, now);
      && StepOk(cfg, l, a) && a.close.None?
      && a.ledger.submitted == l.submitted + [asdu]
      && a.ledger.received == l.received && a.ledger.acked == l.acked
      && (forall j: nat ::
            Lost(a.ledger, j) <==> Lost(l, j) || (Full(cfg, l) && j == |l.submitted| - l.waiting))
  {
    var kept := if Full(cfg, l) then l.waiting - 1 else l.waiting;
    var queued := l.(submitted := l.submitted + [asdu], waiting := kept + 1);
    PumpKeeps(cfg, queued, now);
    assert l.received + [] == l.received;
    forall j: nat
      ensures Lost(Submit(cfg, l, asdu, now).ledger, j)
              <==> Lost(l, j) || (Full(cfg, l) && j == |l.submitted| - l.waiting)
    {
      SubmitLoses(cfg, l, asdu, now, j);
    }
  }

  // What handling a frame puts out before the queue is pumped: at most one delivery, and no I-frame.
  ghost predicate Handled(l: Ledger, a: Answer) {
    && a.ledger.received == l.received + Deliveries(a.out)
    && (forall f :: f in Frames(a.out) ==> f.UFrame? || f == SFrame(|a.ledger.received|))
  }

  // Neither a delivery nor an I-frame.
  ghost predicate Quiet(x: Item, nr: nat) {
    !x.Got? && (x.Put? ==> x.frame.UFrame? || x.frame == SFrame(nr))
  }

  lemma {:induction false} QuietItems(out: seq<Item>, nr: nat)
    requires forall x :: x in out ==> Quiet(x, nr)
    ensures Deliveries(out) == [] && forall f :: f in Frames(out) ==> f.UFrame? || f == SFrame(nr)
    decreases |out|
  {
    if out != [] {
      assert Quiet(out[0], nr);
      QuietItems(out[1..], nr);
    }
  }

  lemma QuietPutsOut(l: Ledger, a: Answer)
    requires a.ledger.received == l.received && forall x :: x in a.out ==> Quiet(x, |l.received|)
    ensures Handled(l, a)
  {
    QuietItems(a.out, |l.received|);
    assert l.received + [] == l.received;
  }

  lemma HandlePutsOut(cfg: Config, l: Ledger, frame: Frame, now: Instant)
    requires l.Valid()
    requires Handle(cfg, l, frame, now).close.None?
    ensures Handled(l, Handle(cfg, l, frame, now))
  {
    match frame {
      case IFrame(ns, nr, asdu) => IFramePutsOut(cfg, l, ns, nr, asdu, now);
      case SFrame(nr) => QuietPutsOut(l, Settle(l, nr));
      case UFrame(f) => QuietPutsOut(l, OnUFrame(l, f));
    }
  }

  lemma IFramePutsOut(cfg: Config, l: Ledger, ns: nat, nr: nat, asdu: Payload, now: Instant)
    requires l.Valid() && OnIFrame(cfg, l, ns, nr, asdu, now).close.None?
    ensures Handled(l, OnIFrame(cfg, l, ns, nr, asdu, now))
  {
    var a := OnIFrame(cfg, l, ns, nr, asdu, now);
    assert a.out[0] == Got(asdu);
    QuietItems(a.out[1..], |a.ledger.received|);
    assert Deliveries(a.out) == [asdu] + Deliveries(a.out[1..]);
    assert Frames(a.out) == Frames(a.out[1..]);
  }

  // What handling a frame keeps before the queue is pumped.
  ghost predicate Kept(cfg: Config, l: Ledger, a: Answer) {
    && Grows(l, a.ledger)
    && (a.close.Some? ==> a.out == [])
    && (a.close.None? ==>
         && a.ledger.Valid()
         && a.ledger.sent == l.sent
         && |a.ledger.times| <= cfg.k
         && |a.ledger.received| - a.ledger.confirmed <= (if cfg.w == 0 then 0 else cfg.w - 1))
  }

  lemma IFrameKeeps(cfg: Config, l: Ledger, ns: nat, nr: nat, asdu: Payload, now: Instant)
    requires Good(cfg, l)
    ensures Kept(cfg, l, OnIFrame(cfg, l, ns, nr, asdu, now))
  {
    if ns == |l.received| {
      var got := l.(received := l.received + [asdu]);
      SettleKeeps(cfg, got, nr);
      assert Grows(l, Settle(got, nr).ledger);
    }
  }

  lemma UFrameKeeps(cfg: Config, l: Ledger, f: UFunction)
    requires Good(cfg, l)
    ensures Kept(cfg, l, OnUFrame(l, f))
  {
  }

  lemma HandleKeeps(cfg: Config, l: Ledger, frame: Frame, now: Instant)
    requires Good(cfg, l)
    ensures Kept(cfg, l, Handle(cfg, l, frame, now))
  {
    match frame {
      case IFrame(ns, nr, asdu) => IFrameKeeps(cfg, l, ns, nr, asdu, now);
      case SFrame(nr) => SettleKeeps(cfg, l, nr);
      case UFrame(f) => UFrameKeeps(cfg, l, f);
    }
  }

  lemma SettleKeeps(cfg: Config, l: Ledger, nr: nat)
    requires l.Shape() && |l.times| <= cfg.k
    ensures var a := Settle(l, nr);
      && a.ledger.Shape() && |a.ledger.times| <= cfg.k && l.acked <= a.ledger.acked
      && a.ledger == l.(acked := a.ledger.acked, times := a.ledger.times)
  {
  }

  lemma FrameKeeps(cfg: Config, l: Ledger, frame: Frame, now: Instant)
    requires Good(cfg, l)
    ensures StepOk(cfg, l, OnFrame(cfg, l, frame, now))
  {
    var heard := l.(lastRx := now);
    var handled := Handle(cfg, heard, frame, now);
    HandleKeeps(cfg, heard, frame, now);
    if handled.close.None? {
      HandlePutsOut(cfg, heard, frame, now);
      StepAfterHandling(cfg, l, handled, now);
    }
  }

  // What an accepted frame hands over, and what it acknowledges.
  function Carried(frame: Frame): seq<Payload> {
    if frame.IFrame? then [frame.asdu] else []
  }

  function AckedAfter(acked: nat, frame: Frame): nat {
    match frame
    case IFrame(_, nr, _) => nr
    case SFrame(nr) => nr
    case UFrame(_) => acked
  }

  // Nothing else happens to the submissions and the frames received.
  ghost predicate Recounted(l: Ledger, a: Answer, carried: seq<Payload>, acked: nat) {
    && a.ledger.submitted == l.submitted && a.ledger.received == l.received + carried && a.ledger.acked == acked
    && forall j: nat :: Lost(a.ledger, j) <==> Lost(l, j)
  }

  lemma HandleRecounts(cfg: Config, l: Ledger, frame: Frame, now: Instant)
    requires l.Shape() && Handle(cfg, l, frame, now).close.None?
    ensures Recounted(l, Handle(cfg, l, frame, now), Carried(frame), AckedAfter(l.acked, frame))
    ensures Handle(cfg, l, frame, now).ledger.waiting == l.waiting
  {
    assert l.received + [] == l.received;
  }

  lemma FrameRecounts(cfg: Config, l: Ledger, frame: Frame, now: Instant)
    requires Good(cfg, l) && OnFrame(cfg, l, frame, now).close.None?
    ensures Recounted(l, OnFrame(cfg, l, frame, now), Carried(frame), AckedAfter(l.acked, frame))
  {
    var heard := l.(lastRx := now);
    var handled := Handle(cfg, heard, frame, now);
    HandleRecounts(cfg, heard, frame, now);
    HandleKeeps(cfg, heard, frame, now);
    PumpKeeps(cfg, handled.ledger, now);
    forall j: nat
      ensures Lost(OnFrame(cfg, l, frame, now).ledger, j) <==> Lost(l, j)
    {
      PumpLosesNothing(cfg, handled.ledger, now, j);
      assert Lost(heard, j) <==> Lost(l, j);
    }
  }

  lemma TimeRecounts(cfg: Config, l: Ledger, now: Instant)
    ensures Recounted(l, OnTime(cfg, l, now), [], l.acked)
  {
    assert l.received + [] == l.received;
  }

  lemma TimePutsOut(cfg: Config, l: Ledger, now: Instant)
    requires OnTime(cfg, l, now).close.None?
    ensures Handled(l, OnTime(cfg, l, now))
  {
    QuietPutsOut(l, OnTime(cfg, l, now));
  }

  lemma TimeKeeps(cfg: Config, l: Ledger, now: Instant)
    requires Good(cfg, l)
    ensures StepOk(cfg, l, OnTime(cfg, l, now))
  {
    var a := OnTime(cfg, l, now);
    if a.close.None? {
      TimePutsOut(cfg, l, now);
      assert Numbered([], a.ledger, |l.sent|, |l.received|);
      NumberedAfter(Frames(a.out), [], a.ledger, |l.sent|, |l.received|);
      assert Frames(a.out) + [] == Frames(a.out);
    }
  }
}
