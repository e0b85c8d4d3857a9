// APCI: framing of IEC 60870-5-104 (section 5.1), as crates/iec104/src/apci.rs.
module Apci {
  import opened Basics

  const START: Octet := 0x68
  const MAX_LENGTH := 253
  const SEQ_MODULO: U16 := 0x8000

  datatype UFunction = StartDtAct | StartDtCon | StopDtAct | StopDtCon | TestFrAct | TestFrCon

  datatype Apdu =
    | I(ns: U16, nr: U16, asdu: seq<Octet>)
    | S(nr: U16)
    | U(f: UFunction)

  datatype FramingError = BadStart(b: Octet) | BadLength(len: nat) | BadControlField(b: Octet)

  function UBits(f: UFunction): Octet {
    match f
    case StartDtAct => 0x07
    case StartDtCon => 0x0B
    case StopDtAct => 0x13
    case StopDtCon => 0x23
    case TestFrAct => 0x43
    case TestFrCon => 0x83
  }

  function UFromBits(b: Octet): Option<UFunction> {
    if b == 0x07 then Some(StartDtAct)
    else if b == 0x0B then Some(StartDtCon)
    else if b == 0x13 then Some(StopDtAct)
    else if b == 0x23 then Some(StopDtCon)
    else if b == 0x43 then Some(TestFrAct)
    else if b == 0x83 then Some(TestFrCon)
    else None
  }

  // A control word carries the sequence number shifted left; the top bit falls off.
  function Shifted(n: U16): U16 {
    n * 2 % 0x1_0000
  }

  function Control(a: Apdu): seq<Octet> {
    match a
    case I(ns, nr, asdu) => LeBytes(Shifted(ns)) + LeBytes(Shifted(nr)) + asdu
    case S(nr) => [0x01, 0x00] + LeBytes(Shifted(nr))
    case U(f) => [UBits(f), 0, 0, 0]
  }

  // The octets of an APDU: start, length (one octet, so it wraps), control field, ASDU.
  function Encoding(a: Apdu): seq<Octet> {
    [START, |Control(a)| % 256] + Control(a)
  }

  // What the wire can carry: 15-bit sequence numbers and at most 249 ASDU octets.
  predicate InRange(a: Apdu) {
    match a
    case I(ns, nr, asdu) => ns < SEQ_MODULO && nr < SEQ_MODULO && |asdu| <= MAX_LENGTH - 4
    case S(nr) => nr < SEQ_MODULO
    case U(_) => true
  }

  method Encode(a: Apdu) returns (out: seq<Octet>)
    ensures out == Encoding(a)
  {
    out := [START, 0];
    match a {
      case I(ns, nr, asdu) =>
        out := out + LeBytes(Shifted(ns));
        out := out + LeBytes(Shifted(nr));
        out := out + asdu;
      case S(nr) =>
        out := out + [0x01, 0x00];
        out := out + LeBytes(Shifted(nr));
      case U(f) =>
        out := out + [UBits(f), 0, 0, 0];
    }
    out := out[1 := (|out| - 2) % 256];
  }

  // Takes one complete APDU from the front: Ok(None) while octets are missing.
  function Parse(buf: seq<Octet>): Result<Option<(Apdu, nat)>, FramingError> {
    if |buf| < 2 then Ok(None)
    else if buf[0] != START then Err(BadStart(buf[0]))
    else
      var len := buf[1];
      if !(4 <= len <= MAX_LENGTH) then Err(BadLength(len))
      else if |buf| < 2 + len then Ok(None)
      else if buf[2] % 2 == 0 then
        Ok(Some((I(FromLe(buf[2], buf[3]) / 2, FromLe(buf[4], buf[5]) / 2, buf[6..2 + len]), 2 + len)))
      else if len != 4 then Err(BadLength(len))
      else if buf[2] % 4 == 1 then
        Ok(Some((S(FromLe(buf[4], buf[5]) / 2), 6)))
      else
        match UFromBits(buf[2])
        case Some(f) => Ok(Some((U(f), 6)))
        case None => Err(BadControlField(buf[2]))
  }

  // Distance forward on the 15-bit ring: u16 wrapping subtraction, then modulo.
  function SeqDistance(from: U16, to: U16): U16 {
    (to - from) % 0x1_0000 % SEQ_MODULO
  }

  // Whatever the stream, a parsed APDU is in range and its frame lies inside the buffer.
  lemma ParseYieldsInRange(buf: seq<Octet>)
    requires Parse(buf).Ok? && Parse(buf).value.Some?
    ensures var (a, used) := Parse(buf).value.value;
      InRange(a) && 6 <= used <= |buf|
  {
  }

  lemma ControlWord(n: U16)
    requires n < SEQ_MODULO
    ensures var w := LeBytes(Shifted(n));
      FromLe(w[0], w[1]) / 2 == n && w[0] % 2 == 0
  {
  }

  lemma ParseOfIFrame(ns: U16, nr: U16, asdu: seq<Octet>, rest: seq<Octet>)
    requires InRange(I(ns, nr, asdu))
    ensures var e := Encoding(I(ns, nr, asdu));
      Parse(e + rest) == Ok(Some((I(ns, nr, asdu), |e|)))
  {
    ControlWord(ns);
    ControlWord(nr);
    var buf := Encoding(I(ns, nr, asdu)) + rest;
    var s, r := LeBytes(Shifted(ns)), LeBytes(Shifted(nr));
    assert buf[0] == START && buf[1] == 4 + |asdu|;
    assert buf[2] == s[0] && buf[3] == s[1] && buf[4] == r[0] && buf[5] == r[1];
    assert buf[6..6 + |asdu|] == asdu;
  }

  lemma ParseOfSFrame(nr: U16, rest: seq<Octet>)
    requires nr < SEQ_MODULO
    ensures Parse(Encoding(S(nr)) + rest) == Ok(Some((S(nr), 6)))
  {
    ControlWord(nr);
    var buf := Encoding(S(nr)) + rest;
    var r := LeBytes(Shifted(nr));
    assert buf[0] == START && buf[1] == 4 && buf[2] == 1;
    assert buf[4] == r[0] && buf[5] == r[1];
  }

  lemma ParseOfUFrame(f: UFunction, rest: seq<Octet>)
    ensures Parse(Encoding(U(f)) + rest) == Ok(Some((U(f), 6)))
  {
    assert UFromBits(UBits(f)) == Some(f) && UBits(f) % 4 == 3;
    var buf := Encoding(U(f)) + rest;
    assert buf[0] == START && buf[1] == 4 && buf[2] == UBits(f);
  }

  lemma ParseOfFrame(a: Apdu, rest: seq<Octet>)
    requires InRange(a)
    ensures Parse(Encoding(a) + rest) == Ok(Some((a, |Encoding(a)|)))
  {
    match a {
      case I(ns, nr, asdu) => ParseOfIFrame(ns, nr, asdu, rest);
      case S(nr) => ParseOfSFrame(nr, rest);
      case U(f) => ParseOfUFrame(f, rest);
    }
  }

  // An APDU survives the wire, with anything behind it, exactly when it is in range.
  lemma RoundTripExactlyInRange(a: Apdu, rest: seq<Octet>)
    ensures InRange(a) <==> Parse(Encoding(a) + rest) == Ok(Some((a, |Encoding(a)|)))
  {
    if InRange(a) {
      ParseOfFrame(a, rest);
    } else if Parse(Encoding(a) + rest) == Ok(Some((a, |Encoding(a)|))) {
      ParseYieldsInRange(Encoding(a) + rest);
    }
  }

  // Once the parser has decided, later octets cannot change its mind.
  lemma ParseIgnoresLaterOctets(buf: seq<Octet>, more: seq<Octet>)
    requires Parse(buf) != Ok(None)
    ensures Parse(buf + more) == Parse(buf)
  {
    if |buf| >= 2 && buf[0] == START && 4 <= buf[1] <= MAX_LENGTH && 2 + buf[1] <= |buf| {
      assert (buf + more)[6..2 + buf[1]] == buf[6..2 + buf[1]];
    }
  }
}
