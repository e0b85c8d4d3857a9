// The 15-bit session is the ledger seen through counters modulo 32768.
module Refinement {
  import opened Basics
  import opened Apci
  import opened Sessions
  import opened Ledgers

  function Ring(n: nat): U16 {
    n % SEQ_MODULO
  }

  function Wire(f: Frame): Apdu {
    match f
    case IFrame(ns, nr, asdu) => I(Ring(ns), Ring(nr), asdu)
    case SFrame(nr) => S(Ring(nr))
    case UFrame(u) => U(u)
  }

  function WireItem(x: Item): Output {
    match x
    case Put(f) => Transmit(Wire(f))
    case Got(asdu) => Received(asdu)
    case Begun => Started
    case Ended => Stopped
  }

  function WireItems(out: seq<Item>): seq<Output> {
    seq(|out|, i requires 0 <= i < |out| => WireItem(out[i]))
  }

  ghost function Image(l: Ledger): State
    requires l.waiting <= |l.submitted|
  {
    State(l.started, Ring(|l.sent|), Ring(|l.received|), Ring(l.confirmed), l.times, Ring(l.acked),
          l.Queue(), l.rxSince, l.lastRx, l.testSent)
  }

  ghost function ImageOf(a: Answer): Reply
    requires a.ledger.waiting <= |a.ledger.submitted|
  {
    Reply(Image(a.ledger), WireItems(a.out), a.close)
  }

  // The first position at or after base that has the sequence number n.
  function Lift(base: nat, n: U16): nat {
    base + SeqDistance(Ring(base), n)
  }

  function LiftFrame(l: Ledger, apdu: Apdu): Frame {
    match apdu
    case I(ns, nr, asdu) => IFrame(Lift(|l.received|, ns), Lift(l.acked, nr), asdu)
    case S(nr) => SFrame(Lift(l.acked, nr))
    case U(f) => UFrame(f)
  }

  // Sequence numbers as a parsed APDU has them: 15 bits.
  predicate RingNumbers(a: Apdu) {
    match a
    case I(ns, nr, _) => ns < SEQ_MODULO && nr < SEQ_MODULO
    case S(nr) => nr < SEQ_MODULO
    case U(_) => true
  }

  lemma RingStep(n: nat)
    ensures Ring(n + 1) == NextSeq(Ring(n))
  {
  }

  lemma LiftIsCongruent(base: nat, n: U16)
    requires n < SEQ_MODULO
    ensures Ring(Lift(base, n)) == n
    ensures Lift(base, n) == base <==> Ring(base) == n
  {
    var r := Ring(base);
    var d := SeqDistance(r, n);
    assert d == if n >= r then n - r else n - r + SEQ_MODULO;
    assert base == base / SEQ_MODULO * SEQ_MODULO + r;
  }

  lemma DistanceIsExact(from: nat, to: nat)
    requires from <= to < from + SEQ_MODULO
    ensures SeqDistance(Ring(from), Ring(to)) == to - from
  {
    var f, t := Ring(from), Ring(to);
    assert SeqDistance(f, t) == if t >= f then t - f else t - f + SEQ_MODULO;
    assert from == from / SEQ_MODULO * SEQ_MODULO + f && to == to / SEQ_MODULO * SEQ_MODULO + t;
  }

  // With fewer than 32768 frames in flight (k <= 32767), an N(R) is accepted exactly when it names one
  // of the positions from the oldest unacknowledged frame to the end, and then it means that one only.
  lemma AcknowledgementIsExact(l: Ledger, nr: U16)
    requires l.Valid() && |l.times| < SEQ_MODULO && nr < SEQ_MODULO
    ensures Acknowledge(Image(l), nr).close.None?
            <==> exists n: nat :: l.acked <= n <= |l.sent| && Ring(n) == nr
    ensures forall n: nat ::
              (l.acked <= n <= |l.sent| && Ring(n) == nr ==>
                 n == Lift(l.acked, nr) && Acknowledge(Image(l), nr).state == Image(Settle(l, n).ledger))
  {
    LiftIsCongruent(l.acked, nr);
    forall n: nat | l.acked <= n <= |l.sent| && Ring(n) == nr
      ensures n == Lift(l.acked, nr)
      ensures Acknowledge(Image(l), nr).state == Image(Settle(l, n).ledger)
    {
      DistanceIsExact(l.acked, n);
    }
    if Acknowledge(Image(l), nr).close.None? {
      var n := Lift(l.acked, nr);
      assert l.acked <= n <= |l.sent| && Ring(n) == nr;
    }
  }

  // With 32768 or more frames in flight the number is ambiguous: acknowledging the first 32768 looks like nothing.
  lemma WideWindowIsAmbiguous(l: Ledger)
    requires l.Valid() && |l.times| >= SEQ_MODULO
    ensures Ring(l.acked) == Ring(l.acked + SEQ_MODULO) && l.acked + SEQ_MODULO <= |l.sent|
    ensures Acknowledge(Image(l), Ring(l.acked + SEQ_MODULO)) == Reply(Image(l), [], None)
  {
    RingPeriod(l.acked);
    assert SeqDistance(Ring(l.acked), Ring(l.acked + SEQ_MODULO)) == 0;
    assert l.times[0..] == l.times;
  }

  // An N(R) for the first frames in flight up to position n releases exactly these.
  ghost predicate Understood(l: Ledger, n: nat)
    requires l.Valid()
  {
    l.acked <= n <= |l.sent| ==> Acknowledge(Image(l), Ring(n)) == Reply(Image(Settle(l, n).ledger), [], None)
  }

  // So every possible acknowledgement is understood exactly with fewer than 32768 frames in flight.
  lemma AcknowledgementsAreUnderstoodExactly(l: Ledger)
    requires l.Valid()
    ensures (forall n: nat :: Understood(l, n)) <==> |l.times| < SEQ_MODULO
  {
    if |l.times| < SEQ_MODULO {
      forall n: nat
        ensures Understood(l, n)
      {
        if l.acked <= n <= |l.sent| {
          AcknowledgementIsExact(l, Ring(n));
        }
      }
    } else {
      WideWindowIsAmbiguous(l);
      assert |Image(Settle(l, l.acked + SEQ_MODULO).ledger).unacked| < |Image(l).unacked|;
      assert !Understood(l, l.acked + SEQ_MODULO);
    }
  }

  lemma RingPeriod(n: nat)
    ensures Ring(n + SEQ_MODULO) == Ring(n)
  {
  }

  // A receive window of 32768 or more never triggers an acknowledgement.
  lemma WideReceiveWindowNeverTriggers(cfg: Config, a: U16, b: U16)
    requires cfg.w >= SEQ_MODULO
    ensures SeqDistance(a, b) < cfg.w
  {
  }

  lemma WireAfter(a: Answer, before: seq<Item>)
    requires a.ledger.waiting <= |a.ledger.submitted|
    ensures ImageOf(a.After(before)) == ImageOf(a).After(WireItems(before))
  {
    assert WireItems(before + a.out) == WireItems(before) + WireItems(a.out);
  }

  lemma {:induction false} PumpImage(cfg: Config, l: Ledger, now: Instant)
    requires l.waiting <= |l.submitted|
    ensures Pump(cfg, l, now).ledger.waiting <= |Pump(cfg, l, now).ledger.submitted|
    ensures Flush(cfg, Image(l), now) == ImageOf(Pump(cfg, l, now))
    decreases l.waiting
  {
    if l.started && |l.times| < cfg.k && l.waiting > 0 {
      var next := TakeNext(l, now);
      PumpImage(cfg, next, now);
      RingStep(|l.sent|);
      var s := Image(l);
      var taken := s.(queue := s.queue[1..], sendSeq := NextSeq(s.sendSeq), unacked := s.unacked + [now]);
      assert Image(next) == MarkAckedToPeer(taken);
      var frame := [Put(IFrame(|l.sent|, |l.received|, l.submitted[|l.submitted| - l.waiting]))];
      WireAfter(Pump(cfg, next, now), frame);
      assert WireItems(frame) == [Transmit(I(s.sendSeq, s.recvSeq, s.queue[0]))];
    }
  }

  lemma SubmitImage(cfg: Config, l: Ledger, asdu: Payload, now: Instant)
    requires l.waiting <= |l.submitted|
    ensures Submit(cfg, l, asdu, now).ledger.waiting <= |Submit(cfg, l, asdu, now).ledger.submitted|
    ensures SendRaw(cfg, Image(l), asdu, now) == ImageOf(Submit(cfg, l, asdu, now))
  {
    var kept := if Full(cfg, l) then l.waiting - 1 else l.waiting;
    var queued := l.(submitted := l.submitted + [asdu], waiting := kept + 1);
    QueuedImage(l, asdu, kept);
    assert Image(queued) == Enqueue(cfg, Image(l), asdu);
    PumpImage(cfg, queued, now);
  }

  lemma QueuedImage(l: Ledger, asdu: Payload, kept: nat)
    requires kept <= l.waiting <= |l.submitted|
    ensures l.(submitted := l.submitted + [asdu], waiting := kept + 1).Queue()
            == l.Queue()[l.waiting - kept..] + [asdu]
  {
  }

  lemma SettleImage(l: Ledger, nr: U16)
    requires l.Shape() && nr < SEQ_MODULO
    ensures Acknowledge(Image(l), nr) == ImageOf(Settle(l, Lift(l.acked, nr)))
  {
    LiftIsCongruent(l.acked, nr);
  }

  lemma TakeImage(cfg: Config, l: Ledger, asdu: Payload, now: Instant)
    requires l.waiting <= |l.submitted| && cfg.w < SEQ_MODULO
    requires l.confirmed <= |l.received| < l.confirmed + SEQ_MODULO
    ensures Account(cfg, Image(l), asdu, now) == ImageOf(Take(cfg, l, asdu, now))
  {
    DistanceIsExact(l.confirmed, |l.received|);
    assert WireItems([Got(asdu)]) == [Received(asdu)];
    WireAfter(Supervise(l.(rxSince := Some(l.rxSince.UnwrapOr(now)))), [Got(asdu)]);
    assert WireItems([Put(SFrame(|l.received|))]) == [Transmit(S(Ring(|l.received|)))];
  }

  // What the images need: the shape, and no more unconfirmed frames than the ring can count.
  ghost predicate Countable(cfg: Config, l: Ledger) {
    l.Shape() && cfg.w < SEQ_MODULO && |l.received| - l.confirmed < SEQ_MODULO - 1
  }

  lemma IInOrderImage(cfg: Config, l: Ledger, nr: U16, asdu: Payload, now: Instant)
    requires Countable(cfg, l) && nr < SEQ_MODULO
    ensures OnI(cfg, Image(l), Ring(|l.received|), nr, asdu, now)
            == ImageOf(OnIFrame(cfg, l, |l.received|, Lift(l.acked, nr), asdu, now))
  {
    var got := l.(received := l.received + [asdu]);
    assert Image(got) == Image(l).(recvSeq := NextSeq(Image(l).recvSeq)) by {
      RingStep(|l.received|);
    }
    SettleImage(got, nr);
    var settled := Settle(got, Lift(l.acked, nr));
    assert settled.ledger.received == got.received && settled.ledger.confirmed == l.confirmed;
    if settled.close.None? {
      TakeImage(cfg, settled.ledger, asdu, now);
    }
  }

  lemma IImage(cfg: Config, l: Ledger, ns: U16, nr: U16, asdu: Payload, now: Instant)
    requires Countable(cfg, l) && ns < SEQ_MODULO && nr < SEQ_MODULO
    ensures OnI(cfg, Image(l), ns, nr, asdu, now)
            == ImageOf(OnIFrame(cfg, l, Lift(|l.received|, ns), Lift(l.acked, nr), asdu, now))
  {
    LiftIsCongruent(|l.received|, ns);
    if ns == Ring(|l.received|) {
      IInOrderImage(cfg, l, nr, asdu, now);
    }
  }

  lemma UImage(cfg: Config, l: Ledger, f: UFunction)
    requires Countable(cfg, l)
    ensures OnU(Image(l), f) == ImageOf(OnUFrame(l, f))
  {
    DistanceIsExact(l.confirmed, |l.received|);
    assert Ring(l.confirmed) == Ring(|l.received|) <==> l.confirmed == |l.received|;
    assert WireItems([Put(SFrame(|l.received|))]) == [Transmit(S(Ring(|l.received|)))];
    assert WireItems(OnUFrame(l, f).out) == OnU(Image(l), f).out;
  }

  lemma HandleImage(cfg: Config, l: Ledger, apdu: Apdu, now: Instant)
    requires Countable(cfg, l) && RingNumbers(apdu)
    ensures var handled := Handle(cfg, l, LiftFrame(l, apdu), now);
      handled.ledger.waiting <= |handled.ledger.submitted|
      && Dispatch(cfg, Image(l), apdu, now) == ImageOf(handled)
  {
    match apdu {
      case I(ns, nr, asdu) => IImage(cfg, l, ns, nr, asdu, now);
      case S(nr) => SettleImage(l, nr);
      case U(f) => UImage(cfg, l, f);
    }
  }

  lemma FrameImage(cfg: Config, l: Ledger, apdu: Apdu, now: Instant)
    requires Countable(cfg, l) && RingNumbers(apdu)
    ensures var a := OnFrame(cfg, l, LiftFrame(l, apdu), now);
      a.ledger.waiting <= |a.ledger.submitted| && OnApdu(cfg, Image(l), apdu, now) == ImageOf(a)
  {
    var heard := l.(lastRx := now);
    assert Image(heard) == Image(l).(lastRx := now);
    HandleImage(cfg, heard, apdu, now);
    HandledImage(cfg, l, apdu, now, Handle(cfg, heard, LiftFrame(l, apdu), now));
  }

  lemma HandledImage(cfg: Config, l: Ledger, apdu: Apdu, now: Instant, handled: Answer)
    requires l.Shape() && handled == Handle(cfg, l.(lastRx := now), LiftFrame(l, apdu), now)
    requires handled.ledger.waiting <= |handled.ledger.submitted|
    requires Dispatch(cfg, Image(l).(lastRx := now), apdu, now) == ImageOf(handled)
    ensures var a := OnFrame(cfg, l, LiftFrame(l, apdu), now);
      a.ledger.waiting <= |a.ledger.submitted| && OnApdu(cfg, Image(l), apdu, now) == ImageOf(a)
  {
    if handled.close.None? {
      PumpImage(cfg, handled.ledger, now);
      WireAfter(Pump(cfg, handled.ledger, now), handled.out);
    }
  }

  lemma SupervisedImage(l: Ledger)
    requires l.Shape()
    ensures SendSupervisory(Image(l)) == ImageOf(Supervise(l))
  {
    assert WireItems([Put(SFrame(|l.received|))]) == [Transmit(S(Ring(|l.received|)))];
  }

  lemma TestedImage(first: Answer)
    ensures WireItems(first.out + [Put(UFrame(TestFrAct))]) == WireItems(first.out) + [Transmit(U(TestFrAct))]
  {
  }

  lemma TimeImage(cfg: Config, l: Ledger, now: Instant)
    requires l.Shape()
    ensures OnTick(cfg, Image(l), now) == ImageOf(OnTime(cfg, l, now))
  {
    var first := if l.rxSince.Some? && Elapsed(now, l.rxSince.value) >= cfg.t2
                 then Supervise(l) else Answer(l, [], None);
    assert WireItems([]) == [];
    assert ImageOf(first) == if l.rxSince.Some? && Elapsed(now, l.rxSince.value) >= cfg.t2
                             then SendSupervisory(Image(l)) else Reply(Image(l), [], None) by {
      SupervisedImage(l);
    }
    TestedImage(first);
  }

  // ---------------------------------------------------------------- whole runs

  datatype Event = Send(asdu: Payload, at: Instant) | Arrive(apdu: Apdu, at: Instant) | Tick(at: Instant)

  function Step(cfg: Config, s: State, e: Event): Reply {
    match e
    case Send(asdu, now) => SendRaw(cfg, s, asdu, now)
    case Arrive(apdu, now) => OnApdu(cfg, s, apdu, now)
    case Tick(now) => OnTick(cfg, s, now)
  }

  function LedgerStep(cfg: Config, l: Ledger, e: Event): Answer
    requires l.Valid()
  {
    match e
    case Send(asdu, now) => Submit(cfg, l, asdu, now)
    case Arrive(apdu, now) => OnFrame(cfg, l, LiftFrame(l, apdu), now)
    case Tick(now) => OnTime(cfg, l, now)
  }

  // Runs stop at the first step that asks to close.
  function Run(cfg: Config, start: Instant, events: seq<Event>): Reply {
    if events == [] then Reply(Initial(start), [], None)
    else
      var before := Run(cfg, start, events[..|events| - 1]);
      if before.close.Some? then before
      else Step(cfg, before.state, events[|events| - 1]).After(before.out)
  }

  ghost predicate Legal(events: seq<Event>) {
    forall e :: e in events && e.Arrive? ==> RingNumbers(e.apdu)
  }

  // l is the complete history of a run that ended in r: r is its image, and the I-frames the
  // run transmitted are numbered 0, 1, 2, ... in the order their ASDUs were submitted.
  ghost predicate Explains(cfg: Config, l: Ledger, out: seq<Item>, r: Reply) {
    && Good(cfg, l)
    && r == Reply(Image(l), WireItems(out), None)
    && IFrames(Frames(out)) == SentPayloads(l, 0)
    && ConsecutiveFrom(Frames(out), 0)
    && Deliveries(out) == l.received
  }

  function IFrames(frames: seq<Frame>): seq<Payload> {
    if frames == [] then []
    else (if frames[0].IFrame? then [frames[0].asdu] else []) + IFrames(frames[1..])
  }

  ghost predicate ConsecutiveFrom(frames: seq<Frame>, from: nat) {
    frames != [] ==>
      if frames[0].IFrame? then frames[0].ns == from && ConsecutiveFrom(frames[1..], from + 1)
      else ConsecutiveFrom(frames[1..], from)
  }

  lemma StepImage(cfg: Config, l: Ledger, e: Event)
    requires Good(cfg, l) && cfg.w < SEQ_MODULO && (e.Arrive? ==> RingNumbers(e.apdu))
    ensures StepOk(cfg, l, LedgerStep(cfg, l, e))
    ensures var a := LedgerStep(cfg, l, e);
      a.ledger.waiting <= |a.ledger.submitted| && Step(cfg, Image(l), e) == ImageOf(a)
  {
    match e {
      case Send(asdu, now) =>
        SubmitKeeps(cfg, l, asdu, now);
        SubmitImage(cfg, l, asdu, now);
      case Arrive(apdu, now) =>
        FrameKeeps(cfg, l, LiftFrame(l, apdu), now);
        FrameImage(cfg, l, apdu, now);
      case Tick(now) =>
        TimeKeeps(cfg, l, now);
        TimeImage(cfg, l, now);
    }
  }

  function SentPayloads(l: Ledger, from: nat): seq<Payload>
    requires l.Valid() && from <= |l.sent|
  {
    seq(|l.sent| - from, i requires 0 <= i < |l.sent| - from => l.submitted[l.sent[from + i]])
  }

  lemma {:induction false} NumberedPayloads(frames: seq<Frame>, l: Ledger, from: nat, nr: nat)
    requires l.Valid() && Numbered(frames, l, from, nr)
    ensures from <= |l.sent| && IFrames(frames) == SentPayloads(l, from) && ConsecutiveFrom(frames, from)
    decreases |frames|
  {
    if frames != [] {
      var next := if frames[0].IFrame? then from + 1 else from;
      NumberedPayloads(frames[1..], l, next, nr);
      if frames[0].IFrame? {
        FirstSentPayload(l, from);
      }
    }
  }

  lemma FirstSentPayload(l: Ledger, from: nat)
    requires l.Valid() && from < |l.sent|
    ensures SentPayloads(l, from) == [l.submitted[l.sent[from]]] + SentPayloads(l, from + 1)
  {
  }

  lemma {:induction false} ConsecutiveAppend(a: seq<Frame>, b: seq<Frame>, from: nat)
    requires ConsecutiveFrom(a, from) && ConsecutiveFrom(b, from + |IFrames(a)|)
    ensures ConsecutiveFrom(a + b, from) && IFrames(a + b) == IFrames(a) + IFrames(b)
    decreases |a|
  {
    if a == [] {
      assert a + b == b;
    } else {
      assert (a + b)[1..] == a[1..] + b;
      ConsecutiveAppend(a[1..], b, if a[0].IFrame? then from + 1 else from);
      var head := if a[0].IFrame? then [a[0].asdu] else [];
      assert IFrames(a + b) == head + (IFrames(a[1..]) + IFrames(b));
    }
  }

  // The I-frames of one step continue the numbering of those before it.
  lemma NumberingContinues(l: Ledger, m: Ledger, before: seq<Frame>, frames: seq<Frame>)
    requires l.Valid() && m.Valid() && Grows(l, m)
    requires IFrames(before) == SentPayloads(l, 0) && ConsecutiveFrom(before, 0)
    requires Numbered(frames, m, |l.sent|, |m.received|)
    ensures IFrames(before + frames) == SentPayloads(m, 0) && ConsecutiveFrom(before + frames, 0)
  {
    NumberedPayloads(frames, m, |l.sent|, |m.received|);
    ConsecutiveAppend(before, frames, 0);
    SentPayloadsGrow(l, m);
  }

  lemma SentPayloadsGrow(l: Ledger, m: Ledger)
    requires l.Valid() && m.Valid() && Grows(l, m)
    ensures SentPayloads(l, 0) + SentPayloads(m, |l.sent|) == SentPayloads(m, 0)
  {
    var a, b, all := SentPayloads(l, 0), SentPayloads(m, |l.sent|), SentPayloads(m, 0);
    forall i | 0 <= i < |all|
      ensures (a + b)[i] == all[i]
    {
      assert i < |l.sent| ==> m.sent[i] == l.sent[i];
    }
  }

  lemma ExplainsStep(cfg: Config, l: Ledger, out: seq<Item>, r: Reply, e: Event)
    requires Explains(cfg, l, out, r)
    requires cfg.w < SEQ_MODULO && (e.Arrive? ==> RingNumbers(e.apdu))
    requires Step(cfg, r.state, e).close.None?
    ensures var a := LedgerStep(cfg, l, e);
      a.close.None? && Explains(cfg, a.ledger, out + a.out, Step(cfg, r.state, e).After(r.out))
  {
    var a := LedgerStep(cfg, l, e);
    StepImage(cfg, l, e);
    assert a.close.None?;
    WireAfter(a, out);
    FramesAppend(out, a.out);
    DeliveriesAppend(out, a.out);
    NumberingContinues(l, a.ledger, Frames(out), Frames(a.out));
  }

  // ---------------------------------------------------------------- the history is that of the run

  // The ASDUs handed over for sending, in order.
  function Sends(events: seq<Event>): seq<Payload> {
    if events == [] then []
    else
      var e := events[|events| - 1];
      Sends(events[..|events| - 1]) + (if e.Send? then [e.asdu] else [])
  }

  // The ASDUs of the I-frames that arrived, in order.
  function Arrivals(events: seq<Event>): seq<Payload> {
    if events == [] then []
    else
      var e := events[|events| - 1];
      Arrivals(events[..|events| - 1]) + (if e.Arrive? && e.apdu.I? then [e.apdu.asdu] else [])
  }

  // How many of our I-frames the arrived N(R)s acknowledge: each means the next position with that number.
  function AckedBy(events: seq<Event>): nat {
    if events == [] then 0
    else
      var before, e := AckedBy(events[..|events| - 1]), events[|events| - 1];
      if !e.Arrive? then before
      else
        match e.apdu
        case I(_, nr, _) => Lift(before, nr)
        case S(nr) => Lift(before, nr)
        case U(_) => before
  }

  ghost predicate Recounts(l: Ledger, events: seq<Event>) {
    l.submitted == Sends(events) && l.received == Arrivals(events) && l.acked == AckedBy(events)
  }

  // Event p is a send that finds the queue full, with submission j at its head.
  ghost predicate Overflows(cfg: Config, start: Instant, events: seq<Event>, p: nat, j: nat) {
    && p < |events| && events[p].Send?
    && var queue := Run(cfg, start, events[..p]).state.queue;
      queue != [] && |queue| >= cfg.maxQueue && j == |Sends(events[..p])| - |queue|
  }

  // A submission is neither sent nor queued exactly when it was pushed out of a full queue.
  ghost predicate LosesOnlyOnOverflow(cfg: Config, start: Instant, events: seq<Event>, l: Ledger) {
    forall j: nat :: Lost(l, j) <==> exists p: nat :: Overflows(cfg, start, events, p, j)
  }

  lemma LedgerStepRecounts(cfg: Config, l: Ledger, events: seq<Event>, e: Event)
    requires Good(cfg, l) && Recounts(l, events) && LedgerStep(cfg, l, e).close.None?
    ensures Recounts(LedgerStep(cfg, l, e).ledger, events + [e])
    ensures var m := LedgerStep(cfg, l, e).ledger;
      forall j: nat ::
        Lost(m, j) <==> Lost(l, j) || (e.Send? && Full(cfg, l) && j == |l.submitted| - l.waiting)
  {
    assert (events + [e])[..|events|] == events;
    match e {
      case Send(asdu, now) => SubmitKeeps(cfg, l, asdu, now);
      case Arrive(apdu, now) => FrameRecounts(cfg, l, LiftFrame(l, apdu), now);
      case Tick(now) => TimeRecounts(cfg, l, now);
    }
  }

  lemma OverflowsLater(cfg: Config, start: Instant, events: seq<Event>, e: Event, p: nat, j: nat)
    ensures p < |events| ==> (Overflows(cfg, start, events + [e], p, j) <==> Overflows(cfg, start, events, p, j))
    ensures var queue := Run(cfg, start, events).state.queue;
      Overflows(cfg, start, events + [e], |events|, j)
      <==> e.Send? && queue != [] && |queue| >= cfg.maxQueue && j == |Sends(events)| - |queue|
  {
    assert (events + [e])[..|events|] == events;
    if p < |events| {
      assert (events + [e])[..p] == events[..p];
    }
  }

  lemma LossesContinue(cfg: Config, start: Instant, events: seq<Event>, l: Ledger, e: Event, m: Ledger)
    requires l.Valid() && Recounts(l, events) && Run(cfg, start, events).state == Image(l)
    requires LosesOnlyOnOverflow(cfg, start, events, l)
    requires forall j: nat ::
      Lost(m, j) <==> Lost(l, j) || (e.Send? && Full(cfg, l) && j == |l.submitted| - l.waiting)
    ensures LosesOnlyOnOverflow(cfg, start, events + [e], m)
  {
    var all := events + [e];
    forall j: nat
      ensures Lost(m, j) <==> exists p: nat :: Overflows(cfg, start, all, p, j)
    {
      OverflowsLater(cfg, start, events, e, |events|, j);
      if Lost(l, j) {
        var p: nat :| Overflows(cfg, start, events, p, j);
        OverflowsLater(cfg, start, events, e, p, j);
        assert Overflows(cfg, start, all, p, j);
      }
      if p: nat :| Overflows(cfg, start, all, p, j) {
        OverflowsLater(cfg, start, events, e, p, j);
      }
    }
  }

  lemma HistoryContinues(cfg: Config, start: Instant, init: seq<Event>, l: Ledger, e: Event)
    requires Good(cfg, l) && Recounts(l, init) && LedgerStep(cfg, l, e).close.None?
    requires Run(cfg, start, init).state == Image(l) && LosesOnlyOnOverflow(cfg, start, init, l)
    ensures var m := LedgerStep(cfg, l, e).ledger;
      Recounts(m, init + [e]) && LosesOnlyOnOverflow(cfg, start, init + [e], m)
  {
    LedgerStepRecounts(cfg, l, init, e);
    LossesContinue(cfg, start, init, l, e, LedgerStep(cfg, l, e).ledger);
  }

  // The unbounded history l, with the outputs out, is that of the run.
  ghost predicate HistoryOf(cfg: Config, start: Instant, events: seq<Event>, l: Ledger, out: seq<Item>) {
    && Explains(cfg, l, out, Run(cfg, start, events))
    && Recounts(l, events) && LosesOnlyOnOverflow(cfg, start, events, l)
  }

  lemma RunNext(cfg: Config, start: Instant, init: seq<Event>, e: Event)
    requires Run(cfg, start, init + [e]).close.None?
    ensures var before := Run(cfg, start, init);
      && before.close.None? && Step(cfg, before.state, e).close.None?
      && Run(cfg, start, init + [e]) == Step(cfg, before.state, e).After(before.out)
  {
    assert (init + [e])[..|init|] == init;
  }

  lemma ExplainedStep(cfg: Config, start: Instant, init: seq<Event>, e: Event, l0: Ledger, out0: seq<Item>)
    returns (l: Ledger, out: seq<Item>)
    requires cfg.w < SEQ_MODULO && (e.Arrive? ==> RingNumbers(e.apdu))
    requires HistoryOf(cfg, start, init, l0, out0) && Run(cfg, start, init + [e]).close.None?
    ensures HistoryOf(cfg, start, init + [e], l, out)
  {
    var before := Run(cfg, start, init);
    RunNext(cfg, start, init, e);
    ExplainsStep(cfg, l0, out0, before, e);
    HistoryContinues(cfg, start, init, l0, e);
    var a := LedgerStep(cfg, l0, e);
    l, out := a.ledger, out0 + a.out;
  }

  lemma NothingYet(cfg: Config, start: Instant)
    ensures HistoryOf(cfg, start, [], Opening(start), [])
  {
    assert forall j: nat :: !Lost(Opening(start), j);
    assert SentPayloads(Opening(start), 0) == [];
  }

  lemma LegalStep(events: seq<Event>) returns (init: seq<Event>, e: Event)
    requires Legal(events) && events != []
    ensures |init| < |events| && init + [e] == events && Legal(init) && (e.Arrive? ==> RingNumbers(e.apdu))
  {
    init, e := events[..|events| - 1], events[|events| - 1];
    assert init + [e] == events;
  }

  // Every run of sends, APDUs and ticks that is still open is explained by an unbounded history, and that history is
  // the run's: what was handed over for sending, what arrived, what was acknowledged, and what overflow cost.
  lemma {:induction false} EveryRunIsExplained(cfg: Config, start: Instant, events: seq<Event>)
    returns (l: Ledger, out: seq<Item>)
    requires cfg.w < SEQ_MODULO && Legal(events)
    requires Run(cfg, start, events).close.None?
    ensures HistoryOf(cfg, start, events, l, out)
    decreases |events|
  {
    if events == [] {
      NothingYet(cfg, start);
      l, out := Opening(start), [];
    } else {
      var init, e := LegalStep(events);
      RunNext(cfg, start, init, e);
      var l0, out0 := EveryRunIsExplained(cfg, start, init);
      l, out := ExplainedStep(cfg, start, init, e, l0, out0);
    }
  }

  // The payloads of the I-frames transmitted, in order.
  function Transmitted(out: seq<Output>): seq<Payload> {
    if out == [] then []
    else
      (if out[0].Transmit? && out[0].apdu.I? then [out[0].apdu.asdu] else []) + Transmitted(out[1..])
  }

  lemma {:induction false} TransmittedIs(out: seq<Item>)
    ensures Transmitted(WireItems(out)) == IFrames(Frames(out))
    decreases |out|
  {
    if out != [] {
      TransmittedIs(out[1..]);
      assert WireItems(out)[1..] == WireItems(out[1..]);
      if out[0].Put? {
        assert Frames(out) == [out[0].frame] + Frames(out[1..]);
        assert Frames(out)[1..] == Frames(out[1..]);
      } else {
        assert Frames(out) == Frames(out[1..]);
      }
    }
  }

  // ---------------------------------------------------------------- a wide window is reached

  // A peer starts the transfer, and then n payloads are sent.
  function Flood(asdu: Payload, at: Instant, n: nat): seq<Event> {
    if n == 0 then [Arrive(U(StartDtAct), at)] else Flood(asdu, at, n - 1) + [Send(asdu, at)]
  }

  // n frames are in flight, and none is queued.
  ghost predicate InFlight(r: Reply, n: nat) {
    && r.close.None? && r.state.started && r.state.queue == [] && |r.state.unacked| == n
    && r.state.oldestUnackedSeq == 0 && r.state.sendSeq == Ring(n) && |Transmitted(r.out)| == n
  }

  lemma {:induction false} TransmittedSnoc(out: seq<Output>, x: Output)
    ensures Transmitted(out + [x]) == Transmitted(out) + (if x.Transmit? && x.apdu.I? then [x.apdu.asdu] else [])
    decreases |out|
  {
    if out == [] {
      assert out + [x] == [x] && [x][1..] == [];
    } else {
      assert (out + [x])[1..] == out[1..] + [x];
      TransmittedSnoc(out[1..], x);
    }
  }

  // With room in the window a payload goes out at once.
  lemma SendsAtOnce(cfg: Config, s: State, asdu: Payload, now: Instant)
    requires s.started && s.queue == [] && |s.unacked| < cfg.k
    ensures SendRaw(cfg, s, asdu, now)
            == Reply(MarkAckedToPeer(s.(sendSeq := NextSeq(s.sendSeq), unacked := s.unacked + [now])),
                     [Transmit(I(s.sendSeq, s.recvSeq, asdu))], None)
  {
    var queued := Enqueue(cfg, s, asdu);
    assert queued.queue == [asdu] && queued.queue[1..] == [];
    var sent := MarkAckedToPeer(queued.(queue := [], sendSeq := NextSeq(s.sendSeq), unacked := s.unacked + [now]));
    assert sent == MarkAckedToPeer(s.(sendSeq := NextSeq(s.sendSeq), unacked := s.unacked + [now]));
    assert Flush(cfg, queued, now) == Flush(cfg, sent, now).After([Transmit(I(s.sendSeq, s.recvSeq, asdu))]);
    assert Flush(cfg, sent, now) == Reply(sent, [], None);
  }

  lemma OneMoreInFlight(cfg: Config, before: Reply, asdu: Payload, at: Instant, n: nat)
    requires InFlight(before, n) && n < cfg.k
    ensures InFlight(SendRaw(cfg, before.state, asdu, at).After(before.out), n + 1)
  {
    var s := before.state;
    SendsAtOnce(cfg, s, asdu, at);
    RingStep(n);
    TransmittedSnoc(before.out, Transmit(I(s.sendSeq, s.recvSeq, asdu)));
  }

  lemma StartsFlood(cfg: Config, start: Instant, asdu: Payload, at: Instant)
    ensures InFlight(Run(cfg, start, Flood(asdu, at, 0)), 0)
  {
    var first := Flood(asdu, at, 0);
    assert first[..|first| - 1] == [];
    var r := OnApdu(cfg, Initial(start), U(StartDtAct), at);
    assert r.out == [Transmit(U(StartDtCon))] + [Started] + [];
    TransmittedSnoc([], Transmit(U(StartDtCon)));
    TransmittedSnoc([Transmit(U(StartDtCon))], Started);
    assert [] + [Transmit(U(StartDtCon))] == [Transmit(U(StartDtCon))];
    assert Run(cfg, start, []) == Reply(Initial(start), [], None);
    assert [] + r.out == [Transmit(U(StartDtCon))] + [Started];
  }

  lemma {:induction false} FloodFillsTheWindow(cfg: Config, start: Instant, asdu: Payload, at: Instant, n: nat)
    requires n <= cfg.k
    ensures InFlight(Run(cfg, start, Flood(asdu, at, n)), n)
  {
    if n == 0 {
      StartsFlood(cfg, start, asdu, at);
    } else {
      var init := Flood(asdu, at, n - 1);
      FloodFillsTheWindow(cfg, start, asdu, at, n - 1);
      assert Flood(asdu, at, n)[..|init|] == init;
      OneMoreInFlight(cfg, Run(cfg, start, init), asdu, at, n - 1);
    }
  }

  // With k of 32768 or more a run gets there: 32768 frames are transmitted, a peer that has received them all
  // acknowledges them, and all of them stay in flight.
  lemma WideWindowBreaks(cfg: Config, start: Instant, asdu: Payload, at: Instant)
    requires cfg.k >= SEQ_MODULO
    ensures var r := Run(cfg, start, Flood(asdu, at, SEQ_MODULO));
      var after := Run(cfg, start, Flood(asdu, at, SEQ_MODULO) + [Arrive(S(Ring(SEQ_MODULO)), at)]);
      && |Transmitted(r.out)| == |r.state.unacked| == SEQ_MODULO && r.close.None?
      && after.close.None? && after.state.unacked == r.state.unacked
  {
    var flood := Flood(asdu, at, SEQ_MODULO);
    FloodFillsTheWindow(cfg, start, asdu, at, SEQ_MODULO);
    assert (flood + [Arrive(S(Ring(SEQ_MODULO)), at)])[..|flood|] == flood;
    var s := Run(cfg, start, flood).state;
    assert s.unacked[0..] == s.unacked;
  }

  // ---------------------------------------------------------------- nothing is lost

  // Sent in order and none left out is sent from the first on.
  lemma {:induction false} AllInOrder(sent: seq<nat>, n: nat, i: nat)
    requires forall a, b :: 0 <= a < b < |sent| ==> sent[a] < sent[b]
    requires (forall j: nat :: j < n ==> j in sent) && (forall a :: 0 <= a < |sent| ==> sent[a] < n)
    requires i < |sent|
    ensures sent[i] == i
    decreases i
  {
    if i > 0 {
      AllInOrder(sent, n, i - 1);
    }
    assert i > 0 ==> sent[i - 1] < sent[i];
    var j: nat := i;
    assert j < n ==> j in sent;
  }

  // While the queue never fills nothing is lost: what was transmitted and what is queued is what was handed over.
  lemma NothingIsLost(cfg: Config, start: Instant, events: seq<Event>)
    requires cfg.w < SEQ_MODULO && Legal(events) && Run(cfg, start, events).close.None?
    requires forall p: nat :: p < |events| && events[p].Send? ==> QueueHasRoom(cfg, start, events, p)
    ensures var r := Run(cfg, start, events);
      Transmitted(r.out) + r.state.queue == Sends(events)
  {
    var l, out := EveryRunIsExplained(cfg, start, events);
    var n := |l.submitted| - l.waiting;
    TransmittedIs(out);
    assert Transmitted(WireItems(out)) == SentPayloads(l, 0);
    NoneMissing(cfg, start, events, l);
    SentAndQueued(l, n);
  }

  lemma SentAndQueued(l: Ledger, n: nat)
    requires l.Valid() && n == |l.submitted| - l.waiting && forall j: nat :: j < n ==> j in l.sent
    ensures SentPayloads(l, 0) + l.Queue() == l.submitted
  {
    SentAll(l, n);
    assert l.submitted[..n] + l.submitted[n..] == l.submitted;
  }

  lemma NoneMissing(cfg: Config, start: Instant, events: seq<Event>, l: Ledger)
    requires LosesOnlyOnOverflow(cfg, start, events, l)
    requires forall p: nat :: p < |events| && events[p].Send? ==> QueueHasRoom(cfg, start, events, p)
    ensures forall j: nat :: j < |l.submitted| - l.waiting ==> j in l.sent
  {
    forall j: nat | j < |l.submitted| - l.waiting
      ensures j in l.sent
    {
      forall p: nat
        ensures !Overflows(cfg, start, events, p, j)
      {
        assert p < |events| && events[p].Send? ==> QueueHasRoom(cfg, start, events, p);
      }
      assert !Lost(l, j);
    }
  }

  ghost predicate QueueHasRoom(cfg: Config, start: Instant, events: seq<Event>, p: nat)
    requires p < |events|
  {
    |Run(cfg, start, events[..p]).state.queue| < cfg.maxQueue
  }

  lemma SentAll(l: Ledger, n: nat)
    requires l.Valid() && n == |l.submitted| - l.waiting && forall j: nat :: j < n ==> j in l.sent
    ensures |l.sent| == n && SentPayloads(l, 0) == l.submitted[..n]
  {
    forall i | 0 <= i < |l.sent|
      ensures l.sent[i] == i
    {
      AllInOrder(l.sent, n, i);
    }
    var j: nat := |l.sent|;
    assert j < n ==> j in l.sent;
    if |l.sent| > 0 {
      assert l.sent[|l.sent| - 1] == |l.sent| - 1;
    }
  }
}
