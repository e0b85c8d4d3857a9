// Draining a receive buffer that was filled in arbitrary chunks
// (parse_all, crates/iec104/src/connection.rs).
module Framing {
  import opened Basics
  import opened Apci

  // What has been taken off a stream: APDUs, the octets left, and why it ended, if it did.
  datatype Stream = Stream(apdus: seq<Apdu>, rest: seq<Octet>, error: Option<FramingError>)

  function ParseAll(buf: seq<Octet>): (st: Stream)
    ensures forall a :: a in st.apdus ==> InRange(a)
    decreases |buf|
  {
    match Parse(buf)
    case Ok(Some((a, used))) =>
      ParseYieldsInRange(buf);
      var later := ParseAll(buf[used..]);
      later.(apdus := [a] + later.apdus)
    case Ok(None) => Stream([], buf, None)
    case Err(e) => Stream([], buf, Some(e))
  }

  // The next chunk arrives behind whatever was left over; after an error nothing is parsed.
  function Receive(st: Stream, chunk: seq<Octet>): Stream {
    if st.error.Some? then st.(rest := st.rest + chunk)
    else
      var next := ParseAll(st.rest + chunk);
      next.(apdus := st.apdus + next.apdus)
  }

  function ReceiveAll(chunks: seq<seq<Octet>>): Stream {
    if chunks == [] then Stream([], [], None)
    else Receive(ReceiveAll(chunks[..|chunks| - 1]), chunks[|chunks| - 1])
  }

  function Concat(chunks: seq<seq<Octet>>): seq<Octet> {
    if chunks == [] then [] else Concat(chunks[..|chunks| - 1]) + chunks[|chunks| - 1]
  }

  lemma {:induction false} SplitAnywhere(a: seq<Octet>, b: seq<Octet>)
    ensures Receive(ParseAll(a), b) == ParseAll(a + b)
    decreases |a|
  {
    match Parse(a)
    case Ok(Some((apdu, used))) =>
      ParseYieldsInRange(a);
      ParseIgnoresLaterOctets(a, b);
      SplitAnywhere(a[used..], b);
      assert (a + b)[used..] == a[used..] + b;
      assert forall x: seq<Apdu>, y: seq<Apdu> :: ([apdu] + x) + y == [apdu] + (x + y);
    case Ok(None) =>
      assert forall x: seq<Apdu> :: [] + x == x;
    case Err(_) =>
      ParseIgnoresLaterOctets(a, b);
  }

  // The APDUs, the octets left over and the error do not depend on how the stream was cut.
  lemma {:induction false} ChunkingDoesNotMatter(chunks: seq<seq<Octet>>)
    ensures ReceiveAll(chunks) == ParseAll(Concat(chunks))
    decreases |chunks|
  {
    if chunks != [] {
      var init := chunks[..|chunks| - 1];
      ChunkingDoesNotMatter(init);
      SplitAnywhere(Concat(init), chunks[|chunks| - 1]);
    }
  }

  function EncodeAll(apdus: seq<Apdu>): seq<Octet> {
    if apdus == [] then [] else Encoding(apdus[0]) + EncodeAll(apdus[1..])
  }

  // A stream of in-range frames comes out as it went in, however it was cut,
  // up to a frame still incomplete.
  lemma {:induction false} StreamRoundTrip(apdus: seq<Apdu>, tail: seq<Octet>)
    requires forall a :: a in apdus ==> InRange(a)
    requires Parse(tail) == Ok(None)
    ensures ParseAll(EncodeAll(apdus) + tail) == Stream(apdus, tail, None)
    decreases |apdus|
  {
    if apdus == [] {
      assert EncodeAll(apdus) + tail == tail;
    } else {
      var rest := EncodeAll(apdus[1..]) + tail;
      assert EncodeAll(apdus) + tail == Encoding(apdus[0]) + rest;
      ParseOfFrame(apdus[0], rest);
      assert (Encoding(apdus[0]) + rest)[|Encoding(apdus[0])|..] == rest;
      StreamRoundTrip(apdus[1..], tail);
      assert [apdus[0]] + apdus[1..] == apdus;
    }
  }
}
