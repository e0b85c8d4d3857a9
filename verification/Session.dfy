// The link layer of a controlled station (crates/iec104/src/session.rs): 15-bit sequence
// numbers, the k/w windows and the t1/t2/t3 timers of IEC 60870-5-104, sections 5.1 to 5.5.
module Sessions {
  import opened Basics
  import opened Apci

  type Payload = seq<Octet>
  type Instant = int

  datatype Config = Config(k: U16, w: U16, t1: nat, t2: nat, t3: nat, maxQueue: nat)

  datatype Close =
    | AckTimeout
    | TestTimeout
    | SequenceError(expected: U16, got: U16)
    | BadAcknowledge(nr: U16)

  // Transmit stands for writing the octets Encoding(apdu).
  datatype Output = Transmit(apdu: Apdu) | Received(asdu: Payload) | Started | Stopped

  datatype State = State(
    started: bool,
    sendSeq: U16,
    recvSeq: U16,
    lastAckedToPeer: U16,
    unacked: seq<Instant>,
    oldestUnackedSeq: U16,
    queue: seq<Payload>,
    unackedRxSince: Option<Instant>,
    lastRx: Instant,
    testSent: Option<Instant>)

  // A step: the state after it, what it put out, and whether it asks to close the connection.
  datatype Reply = Reply(state: State, out: seq<Output>, close: Option<Close>)
  {
    function After(before: seq<Output>): Reply {
      this.(out := before + out)
    }
  }

  function Initial(now: Instant): State {
    State(false, 0, 0, 0, [], 0, [], None, now, None)
  }

  // Rust's Instant::duration_since, which saturates at zero.
  function Elapsed(now: Instant, since: Instant): nat {
    if now >= since then now - since else 0
  }

  function NextSeq(n: U16): U16 {
    (n + 1) % SEQ_MODULO
  }

  function MarkAckedToPeer(s: State): State {
    s.(lastAckedToPeer := s.recvSeq, unackedRxSince := None)
  }

  function SendSupervisory(s: State): Reply {
    Reply(MarkAckedToPeer(s), [Transmit(S(s.recvSeq))], None)
  }

  function Flush(cfg: Config, s: State, now: Instant): Reply
    decreases |s.queue|
  {
    if s.started && |s.unacked| < cfg.k && s.queue != [] then
      var taken := s.(queue := s.queue[1..], sendSeq := NextSeq(s.sendSeq), unacked := s.unacked + [now]);
      Flush(cfg, MarkAckedToPeer(taken), now)
      .After([Transmit(I(s.sendSeq, s.recvSeq, s.queue[0]))])
    else
      Reply(s, [], None)
  }

  function Enqueue(cfg: Config, s: State, asdu: Payload): State {
    var kept := if |s.queue| >= cfg.maxQueue && s.queue != [] then s.queue[1..] else s.queue;
    s.(queue := kept + [asdu])
  }

  function SendRaw(cfg: Config, s: State, asdu: Payload, now: Instant): Reply {
    Flush(cfg, Enqueue(cfg, s, asdu), now)
  }

  function Acknowledge(s: State, nr: U16): Reply {
    var count := SeqDistance(s.oldestUnackedSeq, nr);
    if count > |s.unacked| then Reply(s, [], Some(BadAcknowledge(nr)))
    else Reply(s.(unacked := s.unacked[count..], oldestUnackedSeq := nr), [], None)
  }

  // An accepted I-frame starts the t2 clock, is handed over and, as the w-th, acknowledged at once.
  function Account(cfg: Config, s: State, asdu: Payload, now: Instant): Reply {
    var s1 := s.(unackedRxSince := Some(s.unackedRxSince.UnwrapOr(now)));
    if SeqDistance(s1.lastAckedToPeer, s1.recvSeq) >= cfg.w then
      SendSupervisory(s1).After([Received(asdu)])
    else
      Reply(s1, [Received(asdu)], None)
  }

  function OnI(cfg: Config, s: State, ns: U16, nr: U16, asdu: Payload, now: Instant): Reply {
    if ns != s.recvSeq then Reply(s, [], Some(SequenceError(s.recvSeq, ns)))
    else
      var acked := Acknowledge(s.(recvSeq := NextSeq(s.recvSeq)), nr);
      if acked.close.Some? then acked else Account(cfg, acked.state, asdu, now)
  }

  function OnU(s: State, f: UFunction): Reply {
    match f
    case StartDtAct =>
      Reply(s.(started := true), [Transmit(U(StartDtCon))] + if s.started then [] else [Started], None)
    case StopDtAct =>
      var acked := if s.recvSeq != s.lastAckedToPeer then SendSupervisory(s) else Reply(s, [], None);
      Reply(acked.state.(started := false),
            acked.out + [Transmit(U(StopDtCon))] + (if s.started then [Stopped] else []),
            None)
    case TestFrAct => Reply(s, [Transmit(U(TestFrCon))], None)
    case TestFrCon => Reply(s.(testSent := None), [], None)
    case StartDtCon => Reply(s, [], None)
    case StopDtCon => Reply(s, [], None)
  }

  function Dispatch(cfg: Config, s: State, apdu: Apdu, now: Instant): Reply {
    match apdu
    case I(ns, nr, asdu) => OnI(cfg, s, ns, nr, asdu, now)
    case S(nr) => Acknowledge(s, nr)
    case U(f) => OnU(s, f)
  }

  function OnApdu(cfg: Config, s: State, apdu: Apdu, now: Instant): Reply {
    var handled := Dispatch(cfg, s.(lastRx := now), apdu, now);
    if handled.close.Some? then handled
    else Flush(cfg, handled.state, now).After(handled.out)
  }

  function OnTick(cfg: Config, s: State, now: Instant): Reply {
    if s.unacked != [] && Elapsed(now, s.unacked[0]) >= cfg.t1 then Reply(s, [], Some(AckTimeout))
    else if s.testSent.Some? && Elapsed(now, s.testSent.value) >= cfg.t1 then Reply(s, [], Some(TestTimeout))
    else
      var acked := if s.unackedRxSince.Some? && Elapsed(now, s.unackedRxSince.value) >= cfg.t2
                   then SendSupervisory(s) else Reply(s, [], None);
      if s.testSent.None? && Elapsed(now, s.lastRx) >= cfg.t3 then
        Reply(acked.state.(testSent := Some(now)), acked.out + [Transmit(U(TestFrAct))], None)
      else acked
  }

  lemma AfterTwice(r: Reply, second: seq<Output>, first: seq<Output>)
    ensures r.After(second).After(first) == r.After(first + second)
  {
    assert first + (second + r.out) == (first + second) + r.out;
  }

  class Session {
    const cfg: Config
    var started: bool
    var sendSeq: U16
    var recvSeq: U16
    var lastAckedToPeer: U16
    var unacked: seq<Instant>
    var oldestUnackedSeq: U16
    var queue: seq<Payload>
    var unackedRxSince: Option<Instant>
    var lastRx: Instant
    var testSent: Option<Instant>
    var out: seq<Output>

    ghost function View(): State
      reads this
    {
      State(started, sendSeq, recvSeq, lastAckedToPeer, unacked, oldestUnackedSeq, queue,
            unackedRxSince, lastRx, testSent)
    }

    constructor (cfg: Config, now: Instant)
      ensures this.cfg == cfg && View() == Initial(now) && out == []
    {
      this.cfg := cfg;
      started := false;
      sendSeq, recvSeq, lastAckedToPeer, oldestUnackedSeq := 0, 0, 0, 0;
      unacked, queue, out := [], [], [];
      unackedRxSince, testSent := None, None;
      lastRx := now;
    }

    // Takes everything produced since the last call.
    method Drain() returns (taken: seq<Output>)
      modifies this
      ensures View() == old(View()) && taken == old(out) && out == []
    {
      taken := out;
      out := [];
    }

    method Send(asdu: Payload, now: Instant)
      modifies this
      ensures Reply(View(), out, None) == SendRaw(cfg, old(View()), asdu, now).After(old(out))
    {
      if |queue| >= cfg.maxQueue && queue != [] {
        queue := queue[1..];
      }
      queue := queue + [asdu];
      FlushQueue(now);
    }

    method Receive(apdu: Apdu, now: Instant) returns (close: Option<Close>)
      modifies this
      ensures Reply(View(), out, close) == OnApdu(cfg, old(View()), apdu, now).After(old(out))
    {
      close := None;
      lastRx := now;
      match apdu {
        case I(ns, nr, asdu) => close := ReceiveI(ns, nr, asdu, now);
        case S(nr) => close := AcknowledgeFrames(nr);
        case U(f) => ReceiveU(f);
      }
      ghost var handled := Dispatch(cfg, old(View()).(lastRx := now), apdu, now);
      assert Reply(View(), out, close) == handled.After(old(out));
      if close.None? {
        FlushQueue(now);
        AfterTwice(Flush(cfg, handled.state, now), handled.out, old(out));
      }
    }

    method ReceiveI(ns: U16, nr: U16, asdu: Payload, now: Instant) returns (close: Option<Close>)
      modifies this
      ensures Reply(View(), out, close) == OnI(cfg, old(View()), ns, nr, asdu, now).After(old(out))
    {
      if ns != recvSeq {
        return Some(SequenceError(recvSeq, ns));
      }
      recvSeq := (recvSeq + 1) % SEQ_MODULO;
      close := AcknowledgeFrames(nr);
      if close.None? {
        if unackedRxSince.None? {
          unackedRxSince := Some(now);
        }
        out := out + [Received(asdu)];
        if SeqDistance(lastAckedToPeer, recvSeq) >= cfg.w {
          TransmitS();
        }
      }
    }

    method ReceiveU(f: UFunction)
      modifies this
      ensures Reply(View(), out, None) == OnU(old(View()), f).After(old(out))
    {
      match f {
        case StartDtAct =>
          out := out + [Transmit(U(StartDtCon))];
          if !started {
            started := true;
            out := out + [Started];
          }
        case StopDtAct =>
          if recvSeq != lastAckedToPeer {
            TransmitS();
          }
          out := out + [Transmit(U(StopDtCon))];
          if started {
            started := false;
            out := out + [Stopped];
          }
        case TestFrAct =>
          out := out + [Transmit(U(TestFrCon))];
        case TestFrCon =>
          testSent := None;
        case StartDtCon =>
        case StopDtCon =>
      }
    }

    method Tick(now: Instant) returns (close: Option<Close>)
      modifies this
      ensures Reply(View(), out, close) == OnTick(cfg, old(View()), now).After(old(out))
    {
      if unacked != [] && Elapsed(now, unacked[0]) >= cfg.t1 {
        return Some(AckTimeout);
      }
      if testSent.Some? && Elapsed(now, testSent.value) >= cfg.t1 {
        return Some(TestTimeout);
      }
      if unackedRxSince.Some? && Elapsed(now, unackedRxSince.value) >= cfg.t2 {
        TransmitS();
      }
      if testSent.None? && Elapsed(now, lastRx) >= cfg.t3 {
        out := out + [Transmit(U(TestFrAct))];
        testSent := Some(now);
      }
      return None;
    }

    method AcknowledgeFrames(nr: U16) returns (close: Option<Close>)
      modifies this
      ensures Reply(View(), out, close) == Acknowledge(old(View()), nr).After(old(out))
    {
      var count := SeqDistance(oldestUnackedSeq, nr);
      if count > |unacked| {
        return Some(BadAcknowledge(nr));
      }
      unacked := unacked[count..];
      oldestUnackedSeq := nr;
      return None;
    }

    method FlushQueue(now: Instant)
      modifies this
      ensures Reply(View(), out, None) == Flush(cfg, old(View()), now).After(old(out))
    {
      while started && |unacked| < cfg.k && queue != []
        invariant Flush(cfg, View(), now).After(out) == Flush(cfg, old(View()), now).After(old(out))
        decreases |queue|
      {
        ghost var before, written := View(), out;
        var asdu := queue[0];
        queue := queue[1..];
        var ns := sendSeq;
        sendSeq := (sendSeq + 1) % SEQ_MODULO;
        unacked := unacked + [now];
        out := out + [Transmit(I(ns, recvSeq, asdu))];
        MarkAcked();
        ghost var frame := [Transmit(I(ns, recvSeq, asdu))];
        assert Flush(cfg, before, now) == Flush(cfg, View(), now).After(frame);
        AfterTwice(Flush(cfg, View(), now), frame, written);
      }
    }

    method TransmitS()
      modifies this
      ensures Reply(View(), out, None) == SendSupervisory(old(View())).After(old(out))
    {
      out := out + [Transmit(S(recvSeq))];
      MarkAcked();
    }

    method MarkAcked()
      modifies this
      ensures View() == MarkAckedToPeer(old(View())) && out == old(out)
    {
      lastAckedToPeer := recvSeq;
      unackedRxSince := None;
    }
  }
}
