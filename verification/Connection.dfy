// Feeding the session from the receive buffer (parse_all, crates/iec104/src/connection.rs).
module Connections {
  import opened Basics
  import opened Apci
  import opened Framing
  import opened Sessions

  datatype Ending = ByFraming(error: FramingError) | ByProtocol(close: Close)

  // The clock is read anew for each APDU: the times at which they are taken, as many as matter.
  type Readings = seq<Instant>

  function At(clock: Readings, n: nat): Instant {
    if n < |clock| then clock[n] else 0
  }

  // Taking things one by one until one asks to close.
  function Fold<X>(step: (State, X) -> Reply, s: State, xs: seq<X>): Reply
    decreases |xs|
  {
    if xs == [] then Reply(s, [], None)
    else
      var head := step(s, xs[0]);
      Then(head, Fold(step, head.state, xs[1..]))
  }

  // The session takes APDUs one by one, the first of them as the n-th, until it asks to close.
  function Drive(cfg: Config, s: State, apdus: seq<Apdu>, clock: Readings, n: nat): Reply {
    Fold(Taking(cfg), s, Timed(apdus, clock, n))
  }

  function Taking(cfg: Config): (State, (Apdu, Instant)) -> Reply {
    (s: State, x: (Apdu, Instant)) => OnApdu(cfg, s, x.0, x.1)
  }

  function Timed(apdus: seq<Apdu>, clock: Readings, n: nat): seq<(Apdu, Instant)> {
    seq(|apdus|, i requires 0 <= i < |apdus| => (apdus[i], At(clock, n + i)))
  }

  // How reading a buffer ends: a protocol error comes before a framing error behind it.
  function EndedBy(r: Reply, st: Stream): Option<Ending> {
    if r.close.Some? then Some(ByProtocol(r.close.value))
    else if st.error.Some? then Some(ByFraming(st.error.value))
    else None
  }

  // One reply, then the rest unless it closes.
  function Then(head: Reply, rest: Reply): Reply {
    if head.close.Some? then head else rest.After(head.out)
  }

  lemma ThenThen(a: Reply, b: Reply, c: Reply)
    ensures Then(a, Then(b, c)) == Then(Then(a, b), c)
  {
    if a.close.None? && b.close.None? {
      AfterTwice(c, b.out, a.out);
    }
  }

  lemma ThenAfterNothing(s: State, r: Reply)
    ensures Then(Reply(s, [], None), r) == r
  {
    assert [] + r.out == r.out;
  }

  lemma {:induction false} FoldInParts<X>(step: (State, X) -> Reply, s: State, a: seq<X>, b: seq<X>)
    ensures var first := Fold(step, s, a); Fold(step, s, a + b) == Then(first, Fold(step, first.state, b))
    decreases |a|
  {
    if a == [] {
      assert a + b == b;
      ThenAfterNothing(s, Fold(step, s, b));
    } else {
      assert (a + b)[0] == a[0] && (a + b)[1..] == a[1..] + b;
      var head := step(s, a[0]);
      FoldInParts(step, head.state, a[1..], b);
      var tail := Fold(step, head.state, a[1..]);
      ThenThen(head, tail, Fold(step, tail.state, b));
    }
  }

  lemma FoldOne<X>(step: (State, X) -> Reply, s: State, x: X)
    ensures Fold(step, s, [x]) == step(s, x)
  {
    var head := step(s, x);
    assert [x][1..] == [];
    assert Fold(step, head.state, []) == Reply(head.state, [], None);
    assert head.out + [] == head.out;
  }

  lemma TimedInParts(a: seq<Apdu>, b: seq<Apdu>, clock: Readings, n: nat)
    ensures Timed(a + b, clock, n) == Timed(a, clock, n) + Timed(b, clock, n + |a|)
  {
  }

  // Taking a sequence of APDUs in two parts changes nothing.
  lemma DriveInParts(cfg: Config, s: State, a: seq<Apdu>, b: seq<Apdu>, clock: Readings, n: nat)
    ensures var first := Drive(cfg, s, a, clock, n);
      Drive(cfg, s, a + b, clock, n) == Then(first, Drive(cfg, first.state, b, clock, n + |a|))
  {
    TimedInParts(a, b, clock, n);
    FoldInParts(Taking(cfg), s, Timed(a, clock, n), Timed(b, clock, n + |a|));
  }

  lemma DriveOne(cfg: Config, s: State, apdu: Apdu, clock: Readings, n: nat)
    ensures Drive(cfg, s, [apdu], clock, n) == OnApdu(cfg, s, apdu, At(clock, n))
  {
    assert Timed([apdu], clock, n) == [(apdu, At(clock, n))];
    FoldOne(Taking(cfg), s, (apdu, At(clock, n)));
  }

  // One APDU behind those taken: where reading stands after it, and, if it closes, after all that follow.
  lemma TakingOneMore(cfg: Config, s: State, taken: seq<Apdu>, apdu: Apdu, rest: seq<Apdu>, clock: Readings,
                      written: seq<Output>, so: Reply)
    requires so == Drive(cfg, s, taken, clock, 0).After(written) && so.close.None?
    ensures var one := OnApdu(cfg, so.state, apdu, At(clock, |taken|)).After(so.out);
      && Drive(cfg, s, taken + [apdu], clock, 0).After(written) == one
      && (one.close.Some? ==> Drive(cfg, s, taken + [apdu] + rest, clock, 0).After(written) == one)
  {
    var before := Drive(cfg, s, taken, clock, 0);
    DriveInParts(cfg, s, taken, [apdu], clock, 0);
    DriveOne(cfg, before.state, apdu, clock, |taken|);
    AfterTwice(OnApdu(cfg, before.state, apdu, At(clock, |taken|)), before.out, written);
    DriveInParts(cfg, s, taken + [apdu], rest, clock, 0);
  }

  lemma TakenWhole(taken: seq<Apdu>, apdu: Apdu, rest: seq<Apdu>)
    ensures taken + ([apdu] + rest) == taken + [apdu] + rest
  {
  }

  // What a connection does with chunks c_1 .. c_n, and how many APDUs it has taken.
  datatype Progress = Progress(reply: Reply, taken: nat, left: seq<Octet>, ended: Option<Ending>)

  function ReadStream(cfg: Config, p: Progress, st: Stream, clock: Readings): Progress {
    var r := Drive(cfg, p.reply.state, st.apdus, clock, p.taken).After(p.reply.out);
    Progress(r, p.taken + |st.apdus|, st.rest, EndedBy(r, st))
  }

  function ReadChunk(cfg: Config, p: Progress, chunk: seq<Octet>, clock: Readings): Progress {
    if p.ended.Some? then p else ReadStream(cfg, p, ParseAll(p.left + chunk), clock)
  }

  function ReadChunks(cfg: Config, s: State, chunks: seq<seq<Octet>>, clock: Readings): Progress {
    if chunks == [] then Progress(Reply(s, [], None), 0, [], None)
    else ReadChunk(cfg, ReadChunks(cfg, s, chunks[..|chunks| - 1], clock), chunks[|chunks| - 1], clock)
  }

  // A stream was read up to here.
  ghost predicate HasRead(cfg: Config, s: State, st: Stream, clock: Readings, p: Progress) {
    var r := Drive(cfg, s, st.apdus, clock, 0);
    && p.reply == r && p.ended == EndedBy(r, st)
    && (p.ended.None? ==> p.left == st.rest && p.taken == |st.apdus|)
  }

  lemma ReadOn(cfg: Config, s: State, before: Stream, next: Stream, clock: Readings, p: Progress)
    requires HasRead(cfg, s, before, clock, p) && p.ended.None?
    ensures HasRead(cfg, s, next.(apdus := before.apdus + next.apdus), clock, ReadStream(cfg, p, next, clock))
  {
    DriveInParts(cfg, s, before.apdus, next.apdus, clock, 0);
  }

  lemma ReadNoMore(cfg: Config, s: State, before: Stream, after: Stream, clock: Readings, p: Progress)
    requires HasRead(cfg, s, before, clock, p) && p.ended.Some?
    requires before.error.Some? ==> after == before.(rest := after.rest)
    requires before.error.None? ==> before.apdus <= after.apdus
    ensures HasRead(cfg, s, after, clock, p)
  {
    if before.error.None? {
      var later := after.apdus[|before.apdus|..];
      assert before.apdus + later == after.apdus;
      DriveInParts(cfg, s, before.apdus, later, clock, 0);
    }
  }

  lemma ReadMore(cfg: Config, s: State, a: seq<Octet>, chunk: seq<Octet>, clock: Readings, p: Progress)
    requires HasRead(cfg, s, ParseAll(a), clock, p)
    ensures HasRead(cfg, s, ParseAll(a + chunk), clock, ReadChunk(cfg, p, chunk, clock))
  {
    var before, after := ParseAll(a), ParseAll(a + chunk);
    SplitAnywhere(a, chunk);
    if p.ended.Some? {
      ReadNoMore(cfg, s, before, after, clock, p);
    } else {
      ReadOn(cfg, s, before, ParseAll(before.rest + chunk), clock, p);
    }
  }

  // With each APDU taken at its time, the session ends in the same state with the same output and for the same reason,
  // however the stream was cut into chunks.
  lemma {:induction false} ChunkingDoesNotReachTheSession(cfg: Config, s: State, chunks: seq<seq<Octet>>,
                                                          clock: Readings)
    ensures HasRead(cfg, s, ParseAll(Concat(chunks)), clock, ReadChunks(cfg, s, chunks, clock))
    decreases |chunks|
  {
    if chunks != [] {
      var init, chunk := chunks[..|chunks| - 1], chunks[|chunks| - 1];
      ChunkingDoesNotReachTheSession(cfg, s, init, clock);
      ReadMore(cfg, s, Concat(init), chunk, clock, ReadChunks(cfg, s, init, clock));
    }
  }

  class Connection {
    const session: Session
    var buf: seq<Octet>

    constructor (session: Session)
      ensures this.session == session && buf == []
    {
      this.session := session;
      buf := [];
    }

    method ReadAll(clock: Readings) returns (ended: Option<Ending>)
      modifies this, session
      ensures var st := ParseAll(old(buf));
        var r := Drive(session.cfg, old(session.View()), st.apdus, clock, 0).After(old(session.out));
        && Reply(session.View(), session.out, r.close) == r
        && ended == EndedBy(r, st)
        && (r.close.None? ==> buf == st.rest)
    {
      ghost var start, written := session.View(), session.out;
      ghost var taken: seq<Apdu> := [];
      ghost var all := ParseAll(buf).apdus;
      var n := 0;
      while true
        invariant all == taken + ParseAll(buf).apdus && n == |taken|
        invariant ParseAll(buf).rest == ParseAll(old(buf)).rest && ParseAll(buf).error == ParseAll(old(buf)).error
        invariant Reply(session.View(), session.out, None) == Drive(session.cfg, start, taken, clock, 0).After(written)
        decreases |buf|
      {
        match Parse(buf) {
          case Ok(Some((apdu, used))) =>
            ParseYieldsInRange(buf);
            ghost var rest := ParseAll(buf[used..]).apdus;
            TakenWhole(taken, apdu, rest);
            TakingOneMore(session.cfg, start, taken, apdu, rest, clock, written, Reply(session.View(), session.out, None));
            buf := buf[used..];
            var close := session.Receive(apdu, At(clock, n));
            if close.Some? {
              return Some(ByProtocol(close.value));
            }
            taken := taken + [apdu];
            n := n + 1;
          case Ok(None) =>
            assert taken + [] == taken;
            return None;
          case Err(e) =>
            assert taken + [] == taken;
            return Some(ByFraming(e));
        }
      }
    }
  }
}
