// The station connected to a conforming controlling station over two ordered, lossless channels.
// Both sides count modulo 32768.
module Links {
  import opened Basics
  import opened Apci
  import opened Sessions
  import opened Ledgers
  import opened Refinement

  // A controlling station: it numbers its I-frames, keeps at most `window` of them unacknowledged,
  // puts its current V(R) into every frame, and checks what it receives.
  datatype Peer = Peer(
    sendSeq: U16,
    recvSeq: U16,
    oldestUnackedSeq: U16,
    inFlight: nat,
    sent: seq<Payload>,        // every ASDU it has transmitted
    delivered: seq<Payload>,   // every ASDU it has accepted
    fault: bool)               // it saw a sequence number or an acknowledgement it cannot accept

  datatype Link = Link(
    s: State,
    peer: Peer,
    toPeer: seq<Apdu>,
    toUs: seq<Apdu>,
    transmitted: seq<Payload>, // every ASDU we have transmitted
    received: seq<Payload>,    // every ASDU we have handed to the application
    closed: Option<Close>)

  datatype Move =
    | Submitting(asdu: Payload, at: Instant)
    | Ticking(at: Instant)
    | Arriving(at: Instant)
    | PeerSends(asdu: Payload)
    | PeerAcknowledges
    | PeerControls(f: UFunction)
    | PeerReads

  function Connected(start: Instant): Link {
    Link(Initial(start), Peer(0, 0, 0, 0, [], [], false), [], [], [], [], None)
  }

  function Transmissions(out: seq<Output>): seq<Apdu> {
    if out == [] then []
    else (if out[0].Transmit? then [out[0].apdu] else []) + Transmissions(out[1..])
  }

  function Handed(out: seq<Output>): seq<Payload> {
    if out == [] then []
    else (if out[0].Received? then [out[0].asdu] else []) + Handed(out[1..])
  }

  function Asdus(apdus: seq<Apdu>): seq<Payload> {
    if apdus == [] then []
    else (if apdus[0].I? then [apdus[0].asdu] else []) + Asdus(apdus[1..])
  }

  // Our session's step, its outputs going into the channel and to the application.
  function Ours(x: Link, r: Reply): Link {
    var frames := Transmissions(r.out);
    x.(s := r.state, toPeer := x.toPeer + frames, transmitted := x.transmitted + Asdus(frames),
       received := x.received + Handed(r.out), closed := r.close)
  }

  function PeerAccepts(p: Peer, nr: U16): Peer {
    var count := SeqDistance(p.oldestUnackedSeq, nr);
    if count > p.inFlight then p.(fault := true)
    else p.(oldestUnackedSeq := nr, inFlight := p.inFlight - count)
  }

  function PeerTakes(p: Peer, a: Apdu): Peer {
    match a
    case I(ns, nr, asdu) =>
      if ns != p.recvSeq then p.(fault := true)
      else PeerAccepts(p.(recvSeq := NextSeq(p.recvSeq), delivered := p.delivered + [asdu]), nr)
    case S(nr) => PeerAccepts(p, nr)
    case U(_) => p
  }

  function Next(cfg: Config, window: nat, x: Link, m: Move): Link {
    if x.closed.Some? || x.peer.fault then x
    else
      match m
      case Submitting(asdu, now) => Ours(x, SendRaw(cfg, x.s, asdu, now))
      case Ticking(now) => Ours(x, OnTick(cfg, x.s, now))
      case Arriving(now) =>
        if x.toUs == [] then x
        else Ours(x.(toUs := x.toUs[1..]), OnApdu(cfg, x.s, x.toUs[0], now))
      case PeerSends(asdu) =>
        if x.peer.inFlight >= window then x
        else
          var p := x.peer;
          x.(toUs := x.toUs + [I(p.sendSeq, p.recvSeq, asdu)],
             peer := p.(sendSeq := NextSeq(p.sendSeq), inFlight := p.inFlight + 1, sent := p.sent + [asdu]))
      case PeerAcknowledges => x.(toUs := x.toUs + [S(x.peer.recvSeq)])
      case PeerControls(f) => x.(toUs := x.toUs + [U(f)])
      case PeerReads =>
        if x.toPeer == [] then x
        else x.(toPeer := x.toPeer[1..], peer := PeerTakes(x.peer, x.toPeer[0]))
  }

  function Play(cfg: Config, window: nat, start: Instant, moves: seq<Move>): Link {
    if moves == [] then Connected(start)
    else Next(cfg, window, Play(cfg, window, start, moves[..|moves| - 1]), moves[|moves| - 1])
  }

  // ---------------------------------------------------------------- the invariant

  // Frames under way: I-frames number log[base..] consecutively, and the N(R)s do not
  // decrease from lo to hi.
  ghost predicate UnderWay(frames: seq<Frame>, log: seq<Payload>, base: nat, lo: nat, hi: nat)
    decreases |frames|
  {
    if frames == [] then base == |log| && lo <= hi
    else
      match frames[0]
      case IFrame(ns, nr, asdu) =>
        && ns == base < |log| && asdu == log[base] && lo <= nr <= hi
        && UnderWay(frames[1..], log, base + 1, nr, hi)
      case SFrame(nr) => lo <= nr <= hi && UnderWay(frames[1..], log, base, nr, hi)
      case UFrame(_) => UnderWay(frames[1..], log, base, lo, hi)
  }

  function WireFrames(frames: seq<Frame>): seq<Apdu> {
    if frames == [] then [] else [Wire(frames[0])] + WireFrames(frames[1..])
  }

  // What explains a link: our ledger, how much the peer knows acknowledged, the frames under way.
  datatype Story = Story(l: Ledger, peerAcked: nat, toPeer: seq<Frame>, toUs: seq<Frame>)

  ghost predicate PeerCounts(p: Peer, acked: nat) {
    && acked <= |p.sent|
    && p.sendSeq == Ring(|p.sent|)
    && p.recvSeq == Ring(|p.delivered|)
    && p.oldestUnackedSeq == Ring(acked)
    && p.inFlight == |p.sent| - acked
  }

  ghost predicate Tells(cfg: Config, window: nat, x: Link, y: Story) {
    && Good(cfg, y.l)
    && x.s == Image(y.l)
    && PeerCounts(x.peer, y.peerAcked)
    && x.peer.inFlight <= window
    && x.toPeer == WireFrames(y.toPeer)
    && x.toUs == WireFrames(y.toUs)
    && x.transmitted == SentPayloads(y.l, 0)
    && x.received == y.l.received
    && x.peer.delivered <= x.transmitted
    && x.received <= x.peer.sent
    && UnderWay(y.toPeer, x.transmitted, |x.peer.delivered|, y.peerAcked, |x.received|)
    && UnderWay(y.toUs, x.peer.sent, |x.received|, y.l.acked, |x.peer.delivered|)
  }

  ghost predicate Safe(cfg: Config, window: nat, x: Link) {
    && !x.peer.fault
    && (x.closed.Some? ==> x.closed.value in {AckTimeout, TestTimeout})
    && x.peer.delivered <= x.transmitted
    && x.received <= x.peer.sent
    && (x.closed.None? ==> exists y :: Tells(cfg, window, x, y))
  }

  lemma {:induction false} UnderWayBounds(frames: seq<Frame>, log: seq<Payload>, base: nat, lo: nat, hi: nat)
    requires UnderWay(frames, log, base, lo, hi)
    ensures base <= |log| && lo <= hi
    decreases |frames|
  {
    if frames != [] {
      match frames[0]
      case IFrame(ns, nr, asdu) => UnderWayBounds(frames[1..], log, base + 1, nr, hi);
      case SFrame(nr) => UnderWayBounds(frames[1..], log, base, nr, hi);
      case UFrame(_) => UnderWayBounds(frames[1..], log, base, lo, hi);
    }
  }

  lemma {:induction false} UnderWayFrom(frames: seq<Frame>, log: seq<Payload>, base: nat, lo: nat, hi: nat, lower: nat)
    requires UnderWay(frames, log, base, lo, hi) && lower <= lo
    ensures UnderWay(frames, log, base, lower, hi)
    decreases |frames|
  {
    if frames != [] && frames[0].UFrame? {
      UnderWayFrom(frames[1..], log, base, lo, hi, lower);
    }
  }

  // More frames enter the channel behind those under way.
  lemma {:induction false} UnderWayAppend(
      a: seq<Frame>, log: seq<Payload>, base: nat, lo: nat, hi: nat,
      b: seq<Frame>, log': seq<Payload>, hi': nat)
    requires UnderWay(a, log, base, lo, hi) && log <= log' && hi <= hi'
    requires UnderWay(b, log', |log|, hi, hi')
    ensures UnderWay(a + b, log', base, lo, hi')
    decreases |a|
  {
    if a == [] {
      assert a + b == b;
      UnderWayFrom(b, log', |log|, hi, hi', lo);
    } else {
      assert (a + b)[1..] == a[1..] + b;
      match a[0]
      case IFrame(ns, nr, asdu) => UnderWayAppend(a[1..], log, base + 1, nr, hi, b, log', hi');
      case SFrame(nr) => UnderWayAppend(a[1..], log, base, nr, hi, b, log', hi');
      case UFrame(_) => UnderWayAppend(a[1..], log, base, lo, hi, b, log', hi');
    }
  }

  lemma {:induction false} NumberedIsUnderWay(frames: seq<Frame>, l: Ledger, from: nat, nr: nat, lo: nat)
    requires l.Valid() && Numbered(frames, l, from, nr) && lo <= nr
    ensures UnderWay(frames, SentPayloads(l, 0), from, lo, nr)
    decreases |frames|
  {
    if frames != [] {
      match frames[0]
      case IFrame(_, _, _) => NumberedIsUnderWay(frames[1..], l, from + 1, nr, nr);
      case SFrame(_) => NumberedIsUnderWay(frames[1..], l, from, nr, nr);
      case UFrame(_) => NumberedIsUnderWay(frames[1..], l, from, nr, lo);
    }
  }

  lemma {:induction false} WireFramesAppend(a: seq<Frame>, b: seq<Frame>)
    ensures WireFrames(a + b) == WireFrames(a) + WireFrames(b)
    decreases |a|
  {
    if a == [] {
      assert a + b == b;
    } else {
      assert (a + b)[1..] == a[1..] + b;
      WireFramesAppend(a[1..], b);
    }
  }

  lemma WireFramesCons(frame: Frame, frames: seq<Frame>)
    ensures WireFrames([frame] + frames) == [Wire(frame)] + WireFrames(frames)
  {
    assert ([frame] + frames)[1..] == frames;
  }

  lemma {:induction false} WireFramesOut(items: seq<Item>)
    ensures Transmissions(WireItems(items)) == WireFrames(Frames(items))
    decreases |items|
  {
    if items != [] {
      assert WireItems(items)[1..] == WireItems(items[1..]);
      WireFramesOut(items[1..]);
      assert WireItems(items)[0] == WireItem(items[0]);
      if items[0].Put? {
        WireFramesCons(items[0].frame, Frames(items[1..]));
        assert Frames(items) == [items[0].frame] + Frames(items[1..]);
      } else {
        assert Frames(items) == Frames(items[1..]);
      }
    }
  }

  lemma {:induction false} WirePayloadsOut(items: seq<Item>)
    ensures Handed(WireItems(items)) == Deliveries(items)
    decreases |items|
  {
    if items != [] {
      assert WireItems(items)[1..] == WireItems(items[1..]);
      WirePayloadsOut(items[1..]);
      assert WireItems(items)[0] == WireItem(items[0]);
    }
  }

  lemma {:induction false} AsdusOfWire(frames: seq<Frame>)
    ensures Asdus(WireFrames(frames)) == IFrames(frames)
    decreases |frames|
  {
    if frames != [] {
      assert WireFrames(frames)[1..] == WireFrames(frames[1..]);
      AsdusOfWire(frames[1..]);
    }
  }

  // Our step, told in the ledger: what it puts out joins the channel consistently.
  lemma OursTells(cfg: Config, window: nat, x: Link, y: Story, a: Answer)
    requires Good(cfg, y.l) && StepOk(cfg, y.l, a) && a.close.None?
    requires x.toPeer == WireFrames(y.toPeer) && x.transmitted == SentPayloads(y.l, 0)
    requires x.received == y.l.received
    requires UnderWay(y.toPeer, x.transmitted, |x.peer.delivered|, y.peerAcked, |x.received|)
    ensures var x' := Ours(x, ImageOf(a));
      var frames := y.toPeer + Frames(a.out);
      && x'.s == Image(a.ledger) && x'.closed.None?
      && x'.toPeer == WireFrames(frames)
      && x'.transmitted == SentPayloads(a.ledger, 0) && x.transmitted <= x'.transmitted
      && x'.received == a.ledger.received
      && UnderWay(frames, x'.transmitted, |x.peer.delivered|, y.peerAcked, |x'.received|)
  {
    WireFramesOut(a.out);
    WirePayloadsOut(a.out);
    AsdusOfWire(Frames(a.out));
    WireFramesAppend(y.toPeer, Frames(a.out));
    NumberedPayloads(Frames(a.out), a.ledger, |y.l.sent|, |a.ledger.received|);
    assert SentPayloads(y.l, 0) + SentPayloads(a.ledger, |y.l.sent|) == SentPayloads(a.ledger, 0);
    NumberedIsUnderWay(Frames(a.out), a.ledger, |y.l.sent|, |a.ledger.received|, |x.received|);
    UnderWayAppend(y.toPeer, x.transmitted, |x.peer.delivered|, y.peerAcked, |x.received|,
                   Frames(a.out), SentPayloads(a.ledger, 0), |a.ledger.received|);
  }

  // A frame that is next in the channel lifts to itself.
  lemma NextFrameLifts(cfg: Config, l: Ledger, frame: Frame, log: seq<Payload>, hi: nat, rest: seq<Frame>)
    requires Good(cfg, l) && cfg.k < SEQ_MODULO
    requires UnderWay([frame] + rest, log, |l.received|, l.acked, hi) && hi <= |l.sent|
    ensures LiftFrame(l, Wire(frame)) == frame
  {
    var frames := [frame] + rest;
    assert frames[0] == frame && frames[1..] == rest;
    match frame {
      case IFrame(ns, nr, asdu) =>
        DistanceIsExact(|l.received|, ns);
        DistanceIsExact(l.acked, nr);
      case SFrame(nr) =>
        DistanceIsExact(l.acked, nr);
      case UFrame(_) =>
    }
  }

  lemma HandleTakes(cfg: Config, l: Ledger, frame: Frame, now: Instant)
    requires l.Shape()
    requires frame.IFrame? ==> frame.ns == |l.received|
    requires !frame.UFrame? ==> l.acked <= frame.nr <= |l.sent|
    ensures var a := Handle(cfg, l, frame, now);
      && a.close.None?
      && a.ledger.received == l.received + (if frame.IFrame? then [frame.asdu] else [])
      && a.ledger.acked == (if frame.UFrame? then l.acked else frame.nr)
  {
    assert l.received + [] == l.received;
  }

  // An in-order frame with an N(R) in the window is accepted, and takes effect exactly once.
  lemma NextFrameTaken(cfg: Config, l: Ledger, frame: Frame, now: Instant)
    requires Good(cfg, l)
    requires frame.IFrame? ==> frame.ns == |l.received|
    requires !frame.UFrame? ==> l.acked <= frame.nr <= |l.sent|
    ensures var a := OnFrame(cfg, l, frame, now);
      && a.close.None?
      && a.ledger.received == l.received + (if frame.IFrame? then [frame.asdu] else [])
      && a.ledger.acked == (if frame.UFrame? then l.acked else frame.nr)
  {
    var heard := l.(lastRx := now);
    HandleKeeps(cfg, heard, frame, now);
    HandleTakes(cfg, heard, frame, now);
    PumpKeeps(cfg, Handle(cfg, heard, frame, now).ledger, now);
  }

  // The frame that arrives next lifts to the one under way, and is one we accept.
  lemma HeadArrives(cfg: Config, window: nat, x: Link, y: Story)
    requires cfg.k < SEQ_MODULO && Tells(cfg, window, x, y) && x.toUs != []
    ensures y.toUs != []
    ensures var frame := y.toUs[0];
      && x.toUs[0] == Wire(frame) && x.toUs[1..] == WireFrames(y.toUs[1..])
      && LiftFrame(y.l, Wire(frame)) == frame && RingNumbers(Wire(frame))
      && (frame.IFrame? ==> frame.ns == |y.l.received| < |x.peer.sent| && frame.asdu == x.peer.sent[frame.ns])
      && (!frame.UFrame? ==> y.l.acked <= frame.nr <= |y.l.sent|)
      && UnderWay(y.toUs[1..], x.peer.sent, |y.l.received| + (if frame.IFrame? then 1 else 0),
                  if frame.UFrame? then y.l.acked else frame.nr, |x.peer.delivered|)
  {
    var frame, rest := y.toUs[0], y.toUs[1..];
    assert y.toUs == [frame] + rest;
    assert x.toUs[1..] == WireFrames(rest);
    UnderWayBounds(y.toPeer, x.transmitted, |x.peer.delivered|, y.peerAcked, |x.received|);
    NextFrameLifts(cfg, y.l, frame, x.peer.sent, |x.peer.delivered|, rest);
  }

  lemma HeadAnswered(cfg: Config, window: nat, x: Link, y: Story, now: Instant) returns (a: Answer)
    requires cfg.k < SEQ_MODULO && cfg.w < SEQ_MODULO
    requires Tells(cfg, window, x, y) && x.toUs != []
    ensures a.ledger.waiting <= |a.ledger.submitted| && OnApdu(cfg, x.s, x.toUs[0], now) == ImageOf(a)
    ensures StepOk(cfg, y.l, a) && a.close.None?
    ensures y.toUs != [] && x.toUs[1..] == WireFrames(y.toUs[1..])
    ensures UnderWay(y.toUs[1..], x.peer.sent, |a.ledger.received|, a.ledger.acked, |x.peer.delivered|)
    ensures a.ledger.received <= x.peer.sent
  {
    HeadArrives(cfg, window, x, y);
    var frame := y.toUs[0];
    NextFrameTaken(cfg, y.l, frame, now);
    FrameKeeps(cfg, y.l, frame, now);
    FrameImage(cfg, y.l, Wire(frame), now);
    a := OnFrame(cfg, y.l, frame, now);
  }

  lemma ArrivingTells(cfg: Config, window: nat, x: Link, y: Story, now: Instant) returns (y': Story)
    requires cfg.k < SEQ_MODULO && cfg.w < SEQ_MODULO
    requires Tells(cfg, window, x, y) && x.toUs != []
    ensures var x' := Ours(x.(toUs := x.toUs[1..]), OnApdu(cfg, x.s, x.toUs[0], now));
      x'.closed.None? && Tells(cfg, window, x', y')
  {
    var a := HeadAnswered(cfg, window, x, y, now);
    OursTells(cfg, window, x.(toUs := x.toUs[1..]), y, a);
    y' := Story(a.ledger, y.peerAcked, y.toPeer + Frames(a.out), y.toUs[1..]);
  }

  // A step of ours that reads nothing from the channel.
  lemma OwnStepTells(cfg: Config, window: nat, x: Link, y: Story, e: Event) returns (y': Story)
    requires cfg.w < SEQ_MODULO && !e.Arrive?
    requires Tells(cfg, window, x, y) && Step(cfg, x.s, e).close.None?
    ensures Tells(cfg, window, Ours(x, Step(cfg, x.s, e)), y')
  {
    StepImage(cfg, y.l, e);
    var a := LedgerStep(cfg, y.l, e);
    OwnStepReadsNothing(cfg, y.l, e);
    OursTells(cfg, window, x, y, a);
    y' := Story(a.ledger, y.peerAcked, y.toPeer + Frames(a.out), y.toUs);
  }

  lemma OwnStepReadsNothing(cfg: Config, l: Ledger, e: Event)
    requires Good(cfg, l) && !e.Arrive?
    ensures var a := LedgerStep(cfg, l, e);
      a.ledger.received == l.received && a.ledger.acked == l.acked
  {
    if e.Send? {
      var kept := if l.waiting >= cfg.maxQueue && l.waiting > 0 then l.waiting - 1 else l.waiting;
      PumpKeeps(cfg, l.(submitted := l.submitted + [e.asdu], waiting := kept + 1), e.at);
    }
  }

  // The peer puts one frame of its own into the channel.
  lemma PeerWritesTells(cfg: Config, window: nat, x: Link, y: Story, m: Move) returns (y': Story)
    requires Tells(cfg, window, x, y) && !x.peer.fault && x.closed.None?
    requires m.PeerSends? || m.PeerAcknowledges? || m.PeerControls?
    ensures Tells(cfg, window, Next(cfg, window, x, m), y')
  {
    var x' := Next(cfg, window, x, m);
    var n := |x.peer.delivered|;
    if m.PeerSends? && x.peer.inFlight >= window {
      return y;
    }
    var frame := if m.PeerSends? then IFrame(|x.peer.sent|, n, m.asdu)
                 else if m.PeerControls? then UFrame(m.f) else SFrame(n);
    RingStep(|x.peer.sent|);
    assert WireFrames([frame]) == [Wire(frame)] by {
      assert [frame][1..] == [];
    }
    WireFramesAppend(y.toUs, [frame]);
    UnderWayBounds(y.toUs, x.peer.sent, |x.received|, y.l.acked, n);
    assert UnderWay([frame], x'.peer.sent, |x.peer.sent|, n, n) by {
      assert [frame][1..] == [];
    }
    UnderWayAppend(y.toUs, x.peer.sent, |x.received|, y.l.acked, n, [frame], x'.peer.sent, n);
    y' := y.(toUs := y.toUs + [frame]);
  }

  // The peer takes an acknowledgement of what it has sent.
  lemma PeerTakesAck(p: Peer, acked: nat, nr: nat)
    requires PeerCounts(p, acked) && !p.fault && p.inFlight < SEQ_MODULO && acked <= nr <= |p.sent|
    ensures var q := PeerAccepts(p, Ring(nr));
      && !q.fault && PeerCounts(q, nr) && q.inFlight <= p.inFlight
      && q.sent == p.sent && q.delivered == p.delivered
  {
    DistanceIsExact(acked, nr);
  }

  // And the I-frame that is next.
  lemma PeerTakesNext(p: Peer, acked: nat, nr: nat, asdu: Payload)
    requires PeerCounts(p, acked) && !p.fault && p.inFlight < SEQ_MODULO && acked <= nr <= |p.sent|
    ensures var q := PeerTakes(p, I(Ring(|p.delivered|), Ring(nr), asdu));
      && !q.fault && PeerCounts(q, nr) && q.inFlight <= p.inFlight
      && q.sent == p.sent && q.delivered == p.delivered + [asdu]
  {
    RingStep(|p.delivered|);
    PeerTakesAck(p.(recvSeq := NextSeq(p.recvSeq), delivered := p.delivered + [asdu]), acked, nr);
  }

  // The peer reads one of our frames, and finds nothing wrong with it.
  lemma PeerReadsTells(cfg: Config, window: nat, x: Link, y: Story) returns (y': Story)
    requires window < SEQ_MODULO
    requires Tells(cfg, window, x, y) && !x.peer.fault && x.closed.None? && x.toPeer != []
    ensures !Next(cfg, window, x, PeerReads).peer.fault
    ensures Tells(cfg, window, Next(cfg, window, x, PeerReads), y')
  {
    var frame, rest := y.toPeer[0], y.toPeer[1..];
    assert x.toPeer[0] == Wire(frame) && x.toPeer[1..] == WireFrames(rest);
    var n := |x.peer.delivered|;
    UnderWayBounds(y.toPeer, x.transmitted, n, y.peerAcked, |x.received|);
    UnderWayBounds(y.toUs, x.peer.sent, |x.received|, y.l.acked, n);
    match frame {
      case IFrame(ns, nr, asdu) =>
        PeerTakesNext(x.peer, y.peerAcked, nr, asdu);
        y' := y.(toPeer := rest, peerAcked := nr);
        UnderWayBounds(rest, x.transmitted, n + 1, nr, |x.received|);
        UnderWayHigher(y.toUs, x.peer.sent, |x.received|, y.l.acked, n, n + 1);
      case SFrame(nr) =>
        PeerTakesAck(x.peer, y.peerAcked, nr);
        y' := y.(toPeer := rest, peerAcked := nr);
      case UFrame(_) =>
        y' := y.(toPeer := rest);
    }
  }

  lemma {:induction false} UnderWayHigher(frames: seq<Frame>, log: seq<Payload>, base: nat, lo: nat, hi: nat, hi': nat)
    requires UnderWay(frames, log, base, lo, hi) && hi <= hi'
    ensures UnderWay(frames, log, base, lo, hi')
    decreases |frames|
  {
    if frames != [] {
      match frames[0]
      case IFrame(_, nr, _) => UnderWayHigher(frames[1..], log, base + 1, nr, hi, hi');
      case SFrame(nr) => UnderWayHigher(frames[1..], log, base, nr, hi, hi');
      case UFrame(_) => UnderWayHigher(frames[1..], log, base, lo, hi, hi');
    }
  }

  lemma NextIsSafe(cfg: Config, window: nat, x: Link, m: Move)
    requires cfg.k < SEQ_MODULO && cfg.w < SEQ_MODULO && window < SEQ_MODULO
    requires Safe(cfg, window, x)
    ensures Safe(cfg, window, Next(cfg, window, x, m))
  {
    if x.closed.None? {
      var y :| Tells(cfg, window, x, y);
      match m {
        case Submitting(asdu, now) => OwnMoveIsSafe(cfg, window, x, y, Send(asdu, now));
        case Ticking(now) => OwnMoveIsSafe(cfg, window, x, y, Tick(now));
        case Arriving(now) =>
          if x.toUs != [] {
            var y' := ArrivingTells(cfg, window, x, y, now);
          }
        case PeerReads =>
          if x.toPeer != [] {
            var y' := PeerReadsTells(cfg, window, x, y);
          }
        case _ =>
          var y' := PeerWritesTells(cfg, window, x, y, m);
      }
    }
  }

  lemma OwnMoveIsSafe(cfg: Config, window: nat, x: Link, y: Story, e: Event)
    requires cfg.w < SEQ_MODULO && !e.Arrive?
    requires Tells(cfg, window, x, y) && !x.peer.fault
    ensures Safe(cfg, window, Ours(x, Step(cfg, x.s, e)))
  {
    if Step(cfg, x.s, e).close.None? {
      var y' := OwnStepTells(cfg, window, x, y, e);
    } else {
      assert Step(cfg, x.s, e).out == [] && e.Tick? by {
        StepImage(cfg, y.l, e);
        if e.Send? {
          OwnSendStaysOpen(cfg, y.l, e);
        }
      }
      assert x.received + [] == x.received && x.transmitted + [] == x.transmitted;
    }
  }

  lemma OwnSendStaysOpen(cfg: Config, l: Ledger, e: Event)
    requires Good(cfg, l) && e.Send?
    ensures LedgerStep(cfg, l, e).close.None?
  {
    var kept := if l.waiting >= cfg.maxQueue && l.waiting > 0 then l.waiting - 1 else l.waiting;
    PumpKeeps(cfg, l.(submitted := l.submitted + [e.asdu], waiting := kept + 1), e.at);
  }

  // Whatever both sides do, in any order and across any number of wrap-arounds: neither sees a
  // sequence error or an impossible acknowledgement, and each has accepted a prefix of what the
  // other transmitted, in order and exactly once.
  lemma {:induction false} LinkNeverBreaks(cfg: Config, window: nat, start: Instant, moves: seq<Move>)
    requires cfg.k < SEQ_MODULO && cfg.w < SEQ_MODULO && window < SEQ_MODULO
    ensures Safe(cfg, window, Play(cfg, window, start, moves))
    decreases |moves|
  {
    if moves == [] {
      var x := Connected(start);
      var y := Story(Opening(start), 0, [], []);
      assert x.s == Image(y.l);
      assert Tells(cfg, window, x, y);
    } else {
      LinkNeverBreaks(cfg, window, start, moves[..|moves| - 1]);
      NextIsSafe(cfg, window, Play(cfg, window, start, moves[..|moves| - 1]), moves[|moves| - 1]);
    }
  }
}
