// The t1, t2 and t3 timers over whole runs with a clock that does not go back
// (IEC 60870-5-104, sections 5.1 to 5.3).
module Timers {
  import opened Basics
  import opened Apci
  import opened Sessions
  import opened Refinement

  function At(e: Event): Instant {
    e.at
  }

  function LastAt(start: Instant, events: seq<Event>): Instant {
    if events == [] then start else At(events[|events| - 1])
  }

  ghost predicate MonotoneClock(start: Instant, events: seq<Event>) {
    events != [] ==>
      LastAt(start, events[..|events| - 1]) <= At(events[|events| - 1])
      && MonotoneClock(start, events[..|events| - 1])
  }

  // Send times are sorted, and no timer was started in the future.
  ghost predicate Clocked(s: State, now: Instant) {
    && (forall i, j :: 0 <= i < j < |s.unacked| ==> s.unacked[i] <= s.unacked[j])
    && (forall i :: 0 <= i < |s.unacked| ==> s.unacked[i] <= now)
    && (s.testSent.Some? ==> s.testSent.value <= now)
    && (s.unackedRxSince.Some? ==> s.unackedRxSince.value <= now)
    && s.lastRx <= now
  }

  lemma {:induction false} FlushClocked(cfg: Config, s: State, now: Instant)
    requires Clocked(s, now)
    ensures Clocked(Flush(cfg, s, now).state, now)
    ensures Flush(cfg, s, now).close.None?
    decreases |s.queue|
  {
    if s.started && |s.unacked| < cfg.k && s.queue != [] {
      var taken := s.(queue := s.queue[1..], sendSeq := NextSeq(s.sendSeq), unacked := s.unacked + [now]);
      FlushClocked(cfg, MarkAckedToPeer(taken), now);
    }
  }

  lemma DispatchClocked(cfg: Config, s: State, apdu: Apdu, now: Instant)
    requires Clocked(s, now)
    ensures Clocked(Dispatch(cfg, s, apdu, now).state, now)
  {
    match apdu {
      case I(ns, nr, asdu) =>
        if ns == s.recvSeq {
          var got := s.(recvSeq := NextSeq(s.recvSeq));
          AcknowledgeClocked(got, nr, now);
          AccountClocked(cfg, Acknowledge(got, nr).state, asdu, now);
        }
      case S(nr) => AcknowledgeClocked(s, nr, now);
      case U(f) => UClocked(s, f, now);
    }
  }

  lemma UClocked(s: State, f: UFunction, now: Instant)
    requires Clocked(s, now)
    ensures Clocked(OnU(s, f).state, now)
  {
  }

  lemma AccountClocked(cfg: Config, s: State, asdu: Payload, now: Instant)
    requires Clocked(s, now)
    ensures Clocked(Account(cfg, s, asdu, now).state, now)
  {
  }

  lemma AcknowledgeClocked(s: State, nr: U16, now: Instant)
    requires Clocked(s, now)
    ensures Clocked(Acknowledge(s, nr).state, now)
  {
  }

  lemma StepClocked(cfg: Config, s: State, e: Event, before: Instant)
    requires Clocked(s, before) && before <= At(e)
    ensures Clocked(Step(cfg, s, e).state, At(e))
  {
    match e {
      case Send(asdu, now) =>
        FlushClocked(cfg, Enqueue(cfg, s, asdu), now);
      case Arrive(apdu, now) =>
        var heard := s.(lastRx := now);
        DispatchClocked(cfg, heard, apdu, now);
        var handled := Dispatch(cfg, heard, apdu, now);
        if handled.close.None? {
          FlushClocked(cfg, handled.state, now);
        }
      case Tick(now) =>
    }
  }

  lemma {:induction false} RunClocked(cfg: Config, start: Instant, events: seq<Event>)
    requires MonotoneClock(start, events)
    ensures Run(cfg, start, events).close.None? ==> Clocked(Run(cfg, start, events).state, LastAt(start, events))
    decreases |events|
  {
    if events != [] {
      var init := events[..|events| - 1];
      RunClocked(cfg, start, init);
      var before := Run(cfg, start, init);
      if before.close.None? {
        StepClocked(cfg, before.state, events[|events| - 1], LastAt(start, init));
      }
    }
  }

  // What a tick that does not close promises at time now.
  ghost predicate TimersServed(cfg: Config, s: State, now: Instant) {
    // every frame in flight is younger than t1
    && (forall i :: 0 <= i < |s.unacked| ==> now - s.unacked[i] < cfg.t1)
    // no received frame has waited t2 or more for our acknowledgement
    && (s.unackedRxSince.Some? ==> now - s.unackedRxSince.value < cfg.t2)
    // a link idle for t3 is being tested, since less than t1 or from this tick on
    && (now - s.lastRx >= cfg.t3 ==>
          s.testSent.Some? && (now - s.testSent.value < cfg.t1 || s.testSent.value == now))
  }

  // At any point of any run, a tick closes exactly when a frame or a test has waited t1,
  // and otherwise leaves every timer served.
  lemma TickServesTimers(cfg: Config, start: Instant, events: seq<Event>, now: Instant)
    requires MonotoneClock(start, events) && LastAt(start, events) <= now
    requires Run(cfg, start, events).close.None?
    ensures var s := Run(cfg, start, events).state;
      var r := OnTick(cfg, s, now);
      && (r.close == Some(AckTimeout)
          <==> exists i :: 0 <= i < |s.unacked| && now - s.unacked[i] >= cfg.t1)
      && (r.close == Some(TestTimeout)
          <==> (forall i :: 0 <= i < |s.unacked| ==> now - s.unacked[i] < cfg.t1)
               && s.testSent.Some? && now - s.testSent.value >= cfg.t1)
      && (r.close.None? ==> TimersServed(cfg, r.state, now))
      && (r.close.Some? ==> r.close.value in {AckTimeout, TestTimeout})
  {
    RunClocked(cfg, start, events);
  }
}
