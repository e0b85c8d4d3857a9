// What survives encoding and decoding an ASDU.
module AsduRoundTrip {
  import opened Basics
  import opened Asdus
  import opened Chunks
  import TimeTags

  const ADDRESSES := 0x100_0000

  predicate ElementFits(e: Element) {
    match e
    case SinglePoint(_, quality) => !quality.overflow
    case SinglePointTime(_, quality, time) => !quality.overflow && time.Fits()
    case MeasuredTime(_, _, time) => time.Fits()
    case SingleCommand(_, _, qualifier) => qualifier < 32
    case Setpoint(_, _, qualifier) => qualifier < 128
    case ClockSync(time) => time.Fits()
    case _ => true
  }

  predicate ObjectFits(typeId: Octet, o: Object) {
    TypeId(o.element) == typeId && ElementFits(o.element) && o.ioa < ADDRESSES
  }

  // What an ASDU can carry: 1 to 127 objects of its own type, every field in range.
  predicate WellFormed(a: Asdu) {
    && 1 <= |a.objects| <= 127
    && (forall o :: o in a.objects ==> ObjectFits(a.typeId, o))
  }

  lemma CauseRoundTrip(c: Cause)
    ensures CauseFrom(CauseCode(c)) == Some(c) && CauseCode(c) < 64
  {
  }

  lemma FlagsRoundTrip(b4: bool, b5: bool, b6: bool, b7: bool, low: Octet)
    requires low < 2
    ensures var b: int := 16 * Bit(b4) + 32 * Bit(b5) + 64 * Bit(b6) + 128 * Bit(b7) + low;
      && b % 2 == low
      && (b / 16 % 2 == 1 <==> b4) && (b / 32 % 2 == 1 <==> b5)
      && (b / 64 % 2 == 1 <==> b6) && (b / 128 == 1 <==> b7)
  {
  }

  lemma QualityRoundTrip(q: Quality, on: bool)
    ensures QualityFrom(QualityBits(q), true) == q
    ensures QualityFrom(HighBits(q) + Bit(on), false) == q.(overflow := false)
    ensures (HighBits(q) + Bit(on)) % 2 == Bit(on)
  {
    FlagsRoundTrip(q.blocked, q.substituted, q.notTopical, q.invalid, Bit(q.overflow));
    FlagsRoundTrip(q.blocked, q.substituted, q.notTopical, q.invalid, Bit(on));
  }

  lemma ElementSize(e: Element)
    ensures Size(TypeId(e)) == Some(|ElementEncoding(e)|)
  {
  }

  lemma PointRoundTrip(on: bool, quality: Quality)
    requires !quality.overflow
    ensures ElementFrom(1, ElementEncoding(SinglePoint(on, quality))) == SinglePoint(on, quality)
  {
    QualityRoundTrip(quality, on);
  }

  lemma TimedPointRoundTrip(on: bool, quality: Quality, time: TimeTag)
    requires !quality.overflow && time.Fits()
    ensures ElementFrom(30, ElementEncoding(SinglePointTime(on, quality, time))) == SinglePointTime(on, quality, time)
  {
    QualityRoundTrip(quality, on);
    TimeRoundTrip(time, [HighBits(quality) + Bit(on)]);
  }

  lemma MeasuredRoundTrip(value: Float32, quality: Quality, time: TimeTag)
    ensures ElementFrom(13, ElementEncoding(Measured(value, quality))) == Measured(value, quality)
    ensures time.Fits() ==>
      ElementFrom(36, ElementEncoding(MeasuredTime(value, quality, time))) == MeasuredTime(value, quality, time)
  {
    QualityRoundTrip(quality, false);
    TimeRoundTrip(time, FloatOctets(value) + [QualityBits(quality)]);
  }

  lemma CommandOctet(on: bool, select: bool, qualifier: Octet)
    ensures var b: int := Bit(on) + qualifier % 32 * 4 + 128 * Bit(select);
      b % 2 == Bit(on) && (b >= 128 <==> select) && b / 4 % 32 == qualifier % 32
  {
  }

  lemma CommandRoundTrip(on: bool, value: Float32, select: bool, qualifier: Octet)
    ensures qualifier < 32 ==>
      ElementFrom(45, ElementEncoding(SingleCommand(on, select, qualifier))) == SingleCommand(on, select, qualifier)
    ensures qualifier < 128 ==>
      ElementFrom(50, ElementEncoding(Setpoint(value, select, qualifier))) == Setpoint(value, select, qualifier)
  {
    CommandOctet(on, select, qualifier);
  }

  lemma ElementRoundTrip(e: Element)
    requires ElementFits(e)
    ensures Size(TypeId(e)) == Some(|ElementEncoding(e)|)
    ensures ElementFrom(TypeId(e), ElementEncoding(e)) == e
  {
    ElementSize(e);
    match e {
      case SinglePoint(on, quality) => PointRoundTrip(on, quality);
      case SinglePointTime(on, quality, time) => TimedPointRoundTrip(on, quality, time);
      case Measured(value, quality) => MeasuredRoundTrip(value, quality, ANY_TIME);
      case MeasuredTime(value, quality, time) => MeasuredRoundTrip(value, quality, time);
      case SingleCommand(on, select, qualifier) => CommandRoundTrip(on, Float32(0, 0, 0, 0), select, qualifier);
      case Setpoint(value, select, qualifier) => CommandRoundTrip(false, value, select, qualifier);
      case ClockSync(time) =>
        TimeRoundTrip(time, []);
        assert [] + TimeTags.Encoding(time) == TimeTags.Encoding(time);
      case EndOfInit(_) =>
      case Interrogation(_) =>
    }
  }

  const ANY_TIME := TimeTags.TimeTag(0, 0, 0, 0, 0, 0, 0, false, false)

  lemma TimeRoundTrip(t: TimeTag, before: seq<Octet>)
    ensures t.Fits() ==> TimeAt(before + TimeTags.Encoding(t), |before|) == t
  {
    assert (before + TimeTags.Encoding(t))[|before|..] == TimeTags.Encoding(t) + [];
    TimeTags.RoundTripExactlyIfFits(t, []);
  }

  lemma ElementFromFits(typeId: Octet, b: seq<Octet>)
    requires Size(typeId) == Some(|b|)
    ensures TypeId(ElementFrom(typeId, b)) == typeId && ElementFits(ElementFrom(typeId, b))
  {
  }

  lemma AddressRoundTrip(ioa: U32)
    requires ioa < ADDRESSES
    ensures AddressAt(Address(ioa)) == ioa
  {
    assert ioa / 256 / 256 == ioa / 65_536;
  }

  lemma ObjectRoundTrip(typeId: Octet, o: Object)
    requires ObjectFits(typeId, o)
    ensures Size(typeId) == Some(|ObjectEncoding(o)| - 3)
    ensures ObjectFrom(typeId, ObjectEncoding(o)) == o
  {
    ElementRoundTrip(o.element);
    AddressRoundTrip(o.ioa);
    var b := ObjectEncoding(o);
    assert b[..3] == Address(o.ioa) && b[3..] == ElementEncoding(o.element);
  }

  lemma ObjectsRoundTrip(typeId: Octet, size: nat, objects: seq<Object>, rest: seq<Octet>)
    requires Size(typeId) == Some(size)
    requires forall o :: o in objects ==> ObjectFits(typeId, o)
    ensures |Join(ObjectEncodings(objects))| == |objects| * (3 + size)
    ensures Spelled(typeId, size, |objects|, Join(ObjectEncodings(objects)) + rest) == objects
  {
    var pieces := ObjectEncodings(objects);
    forall i | 0 <= i < |objects|
      ensures |pieces[i]| == 3 + size && ObjectFrom(typeId, pieces[i]) == objects[i]
    {
      assert objects[i] in objects;
      ObjectRoundTrip(typeId, objects[i]);
    }
    JoinLength(pieces, 3 + size);
    forall k | 0 <= k < |objects|
      ensures Spelled(typeId, size, |objects|, Join(pieces) + rest)[k] == objects[k]
    {
      PieceOfJoin(pieces, 3 + size, k, rest);
    }
  }

  lemma FlagOctet(code: Octet, negative: bool, test: bool)
    requires code < 64
    ensures var b: int := code + 64 * Bit(negative) + 128 * Bit(test);
      b % 64 == code && (b / 64 % 2 == 1 <==> negative) && (b >= 128 <==> test) && b / 128 == Bit(test)
  {
  }

  lemma HeaderRoundTrip(a: Asdu, h: seq<Octet>, objects: seq<Object>)
    requires |h| >= 6 && forall i :: 0 <= i < 6 && i != 1 ==> h[i] == Header(a)[i]
    ensures CauseFrom(h[2] % 64) == Some(a.cause)
    ensures Assembled(h, a.cause, objects) == a.(objects := objects)
  {
    CauseRoundTrip(a.cause);
    FlagOctet(CauseCode(a.cause), a.negative, a.test);
    assert FromLe(h[4], h[5]) == a.commonAddress;
  }

  // The body of a well-formed ASDU behind any header that announces it.
  lemma BodyRoundTrip(a: Asdu, b: seq<Octet>, size: nat, rest: seq<Octet>)
    requires WellFormed(a) && Size(a.typeId) == Some(size)
    requires |b| >= 6 && b[1] == |a.objects| && b[6..] == Join(ObjectEncodings(a.objects)) + rest
    ensures 9 <= Expected(false, |a.objects|, size) <= |b|
    ensures Spelled(a.typeId, size, |a.objects|, b[6..]) == a.objects
  {
    ObjectsRoundTrip(a.typeId, size, a.objects, rest);
    Product(0, |a.objects|, 3 + size);
  }

  lemma TypeHasSize(a: Asdu)
    requires WellFormed(a)
    ensures Size(a.typeId).Some?
  {
    assert a.objects[0] in a.objects;
    ElementSize(a.objects[0].element);
  }

  lemma Slices(head: seq<Octet>, body: seq<Octet>)
    requires |head| == 6
    ensures forall i :: 0 <= i < 6 ==> (head + body)[i] == head[i]
    ensures (head + body)[6..] == body
  {
  }

  lemma ChecksOut(b: seq<Octet>, cause: Cause, size: nat)
    requires |b| >= 6 && Size(b[0]) == Some(size) && CauseFrom(b[2] % 64) == Some(cause)
    requires 9 <= Expected(b[1] >= 128, b[1] % 128, size) <= |b|
    ensures Checked(b) == Ok((cause, size))
  {
  }

  lemma SpelledDecodesTo(b: seq<Octet>, cause: Cause, size: nat, objects: seq<Object>)
    requires |b| >= 6 && Checked(b) == Ok((cause, size)) && b[1] < 128
    requires Spelled(b[0], size, b[1] % 128, b[6..]) == objects
    ensures Decoding(b) == Ok(Assembled(b, cause, objects))
  {
  }

  lemma WellFormedRoundTrip(a: Asdu, rest: seq<Octet>)
    requires WellFormed(a)
    ensures Decoding(Encoding(a) + rest) == Ok(a)
  {
    TypeHasSize(a);
    var size := Size(a.typeId).value;
    var body := Join(ObjectEncodings(a.objects)) + rest;
    var b := Header(a) + body;
    assert Encoding(a) + rest == b;
    Slices(Header(a), body);
    HeaderRoundTrip(a, b, a.objects);
    BodyRoundTrip(a, b, size, rest);
    ChecksOut(b, a.cause, size);
    SpelledDecodesTo(b, a.cause, size, a.objects);
  }

  lemma SpelledFits(typeId: Octet, size: nat, count: nat, b: seq<Octet>)
    requires Size(typeId) == Some(size) && |b| >= count * (3 + size)
    ensures forall o :: o in Spelled(typeId, size, count, b) ==> ObjectFits(typeId, o)
  {
    forall k | 0 <= k < count
      ensures ObjectFits(typeId, Spelled(typeId, size, count, b)[k])
    {
      Product(k, count, 3 + size);
      ObjectFromFits(typeId, Piece(b, 3 + size, k));
    }
  }

  lemma ObjectFromFits(typeId: Octet, b: seq<Octet>)
    requires |b| >= 3 && Size(typeId) == Some(|b| - 3)
    ensures ObjectFits(typeId, ObjectFrom(typeId, b))
  {
    ElementFromFits(typeId, b[3..]);
    AddressInRange(b[..3]);
  }

  lemma AddressInRange(b: seq<Octet>)
    requires |b| == 3
    ensures AddressAt(b) < ADDRESSES
  {
  }

  // Any ASDU that decodes from SQ = 0 octets with a count of at least one is well formed.
  lemma SpelledDecodesWellFormed(b: seq<Octet>)
    requires Decoding(b).Ok? && b[1] < 128
    ensures Decoding(b).value.objects == [] || WellFormed(Decoding(b).value)
  {
    var size := Size(b[0]).value;
    SpelledFits(b[0], size, b[1] % 128, b[6..]);
  }

  lemma ListedObjectFits(typeId: Octet, size: nat, first: U32, count: nat, b: seq<Octet>, k: nat)
    requires Size(typeId) == Some(size) && |b| >= count * size && first + count < 0x1_0000_0000 && k < count
    ensures ObjectFits(typeId, Listed(typeId, size, first, count, b)[k]) <==> first + k < ADDRESSES
  {
    Product(k, count, size);
    ElementFromFits(typeId, Piece(b, size, k));
  }

  // Any ASDU that decodes from SQ = 1 octets with a count of at least one is well formed exactly when its addresses,
  // counted upwards from the first, stay within 24 bits; the decoder does not check that they do.
  lemma ListedDecodesWellFormedExactly(b: seq<Octet>)
    requires Decoding(b).Ok? && b[1] > 128
    ensures |b| >= 9
    ensures WellFormed(Decoding(b).value) <==> AddressAt(b[6..9]) + b[1] % 128 <= ADDRESSES
  {
    var size, first, count := Size(b[0]).value, AddressAt(b[6..9]), b[1] % 128;
    AddressInRange(b[6..9]);
    var objects := Listed(b[0], size, first, count, b[9..]);
    assert Decoding(b).value.objects == objects;
    forall k: nat | k < count
      ensures ObjectFits(b[0], objects[k]) <==> first + k < ADDRESSES
    {
      ListedObjectFits(b[0], size, first, count, b[9..], k);
    }
    assert objects[count - 1] in objects;
  }

  // Decoding gives back what was encoded exactly for the well-formed ASDUs.
  lemma RoundTripExactlyIfWellFormed(a: Asdu)
    ensures Decoding(Encoding(a)) == Ok(a) <==> WellFormed(a)
  {
    if WellFormed(a) {
      WellFormedRoundTrip(a, []);
      assert Encoding(a) + [] == Encoding(a);
    } else if Decoding(Encoding(a)) == Ok(a) {
      assert Encoding(a)[1] == |a.objects| % 128;
      SpelledDecodesWellFormed(Encoding(a));
    }
  }

  // Where the source indexes past the end: a supported type and a known cause, no objects, SQ = 0,
  // and 6 to 8 octets.
  lemma PanicsExactlyOnShortEmpty(b: seq<Octet>)
    ensures Decoding(b) == Err(Panics)
            <==> 6 <= |b| < 9 && b[1] == 0 && Size(b[0]).Some? && CauseFrom(b[2] % 64).Some?
  {
    if |b| >= 6 && Size(b[0]).Some? {
      var size, count := Size(b[0]).value, b[1] % 128;
      assert count >= 1 ==> count * (3 + size) >= 1 * (3 + size);
    }
  }

  // ---------------------------------------------------------------- SQ = 1

  // The objects at consecutive addresses.
  predicate Consecutive(objects: seq<Object>) {
    forall i :: 0 <= i < |objects| ==> objects[i].ioa == objects[0].ioa + i
  }

  function ElementEncodings(objects: seq<Object>): seq<seq<Octet>> {
    seq(|objects|, i requires 0 <= i < |objects| => ElementEncoding(objects[i].element))
  }

  // The compact form: one address, the SQ bit set.
  function ListedEncoding(a: Asdu): seq<Octet>
    requires a.objects != []
  {
    Header(a)[1 := |a.objects| % 128 + 128] + Address(a.objects[0].ioa) + Join(ElementEncodings(a.objects))
  }

  lemma ListRoundTrip(typeId: Octet, size: nat, ioa: U32, objects: seq<Object>)
    requires Size(typeId) == Some(size) && ioa + |objects| < 0x1_0000_0000
    requires forall o :: o in objects ==> ObjectFits(typeId, o)
    requires forall i :: 0 <= i < |objects| ==> objects[i].ioa == ioa + i
    ensures |Join(ElementEncodings(objects))| == |objects| * size
    ensures Listed(typeId, size, ioa, |objects|, Join(ElementEncodings(objects))) == objects
  {
    var pieces := ElementEncodings(objects);
    forall i | 0 <= i < |objects|
      ensures |pieces[i]| == size && ElementFrom(typeId, pieces[i]) == objects[i].element
    {
      assert objects[i] in objects;
      ElementRoundTrip(objects[i].element);
    }
    JoinLength(pieces, size);
    assert Join(pieces) + [] == Join(pieces);
    forall k | 0 <= k < |objects|
      ensures Listed(typeId, size, ioa, |objects|, Join(pieces))[k] == objects[k]
    {
      PieceOfJoin(pieces, size, k, []);
    }
  }

  lemma ListBodyRoundTrip(a: Asdu, b: seq<Octet>, size: nat)
    requires WellFormed(a) && Consecutive(a.objects) && Size(a.typeId) == Some(size)
    requires |b| >= 6 && b[6..] == Address(a.objects[0].ioa) + Join(ElementEncodings(a.objects))
    ensures 9 <= Expected(true, |a.objects|, size) <= |b|
    ensures AddressAt(b[6..9]) == a.objects[0].ioa
    ensures Listed(a.typeId, size, a.objects[0].ioa, |a.objects|, b[9..]) == a.objects
  {
    var first := a.objects[0].ioa;
    assert a.objects[0] in a.objects;
    ListRoundTrip(a.typeId, size, first, a.objects);
    AddressRoundTrip(first);
    assert b[6..9] == b[6..][..3] == Address(first);
    assert b[9..] == b[6..][3..] == Join(ElementEncodings(a.objects));
  }

  lemma ListedDecodesTo(b: seq<Octet>, cause: Cause, size: nat, objects: seq<Object>)
    requires |b| >= 9 && Checked(b) == Ok((cause, size)) && b[1] >= 128
    requires Listed(b[0], size, AddressAt(b[6..9]), b[1] % 128, b[9..]) == objects
    ensures Decoding(b) == Ok(Assembled(b, cause, objects))
  {
  }

  lemma ListedHeader(a: Asdu, size: nat, body: seq<Octet>) returns (b: seq<Octet>)
    requires WellFormed(a) && Size(a.typeId) == Some(size)
    ensures b == Header(a)[1 := |a.objects| % 128 + 128] + body && |b| >= 6 && b[6..] == body
    ensures b[0] == a.typeId && b[1] == |a.objects| + 128 < 256 && b[1] % 128 == |a.objects|
    ensures CauseFrom(b[2] % 64) == Some(a.cause) && Assembled(b, a.cause, a.objects) == a
  {
    var head := Header(a)[1 := |a.objects| % 128 + 128];
    b := head + body;
    Slices(head, body);
    HeaderRoundTrip(a, b, a.objects);
  }

  lemma ListedPartsRoundTrip(a: Asdu, b: seq<Octet>, size: nat)
    requires WellFormed(a) && Consecutive(a.objects) && Size(a.typeId) == Some(size)
    requires |b| >= 6 && b[6..] == Address(a.objects[0].ioa) + Join(ElementEncodings(a.objects))
    requires b[0] == a.typeId && b[1] == |a.objects| + 128 && b[1] % 128 == |a.objects|
    requires CauseFrom(b[2] % 64) == Some(a.cause) && Assembled(b, a.cause, a.objects) == a
    ensures Decoding(b) == Ok(a)
  {
    ListBodyRoundTrip(a, b, size);
    ChecksOut(b, a.cause, size);
    ListedDecodesTo(b, a.cause, size, a.objects);
  }

  lemma ListedRoundTrip(a: Asdu)
    requires WellFormed(a) && Consecutive(a.objects)
    ensures Decoding(ListedEncoding(a)) == Ok(a)
  {
    TypeHasSize(a);
    var size := Size(a.typeId).value;
    var body := Address(a.objects[0].ioa) + Join(ElementEncodings(a.objects));
    var b := ListedHeader(a, size, body);
    ListedPartsRoundTrip(a, b, size);
    assert ListedEncoding(a) == b;
  }

  // A well-formed ASDU with consecutive addresses decodes alike from both forms.
  lemma ListedDecodesAsSpelled(a: Asdu)
    requires WellFormed(a) && Consecutive(a.objects)
    ensures Decoding(ListedEncoding(a)) == Ok(a)
    ensures Decoding(ListedEncoding(a)) == Decoding(Encoding(a))
  {
    RoundTripExactlyIfWellFormed(a);
    ListedRoundTrip(a);
  }

  // ---------------------------------------------------------------- mirrored replies

  lemma MirrorHeader(a: Asdu, cause: Cause)
    ensures Header(a.Mirror(cause, true))
            == Header(a)[2 := Header(a)[2] / 128 * 128 + 64 + CauseCode(cause)]
  {
    CauseRoundTrip(a.cause);
    CauseRoundTrip(cause);
    FlagOctet(CauseCode(a.cause), a.negative, a.test);
  }

  // Mirroring raw octets is mirroring the ASDU they carry, negatively, and nothing else changes.
  lemma MirrorRawMirrors(a: Asdu, cause: Cause)
    ensures MirrorRaw(Encoding(a), cause) == Encoding(a.Mirror(cause, true))
  {
    MirrorHeader(a, cause);
    var h, body := Header(a), Join(ObjectEncodings(a.objects));
    assert MirrorRaw(h + body, cause) == h[2 := h[2] / 128 * 128 + 64 + CauseCode(cause)] + body;
  }
}
