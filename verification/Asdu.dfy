// ASDUs of IEC 60870-5-101, section 7, as profiled by IEC 60870-5-104 (crates/iec104/src/asdu.rs).
module Asdus {
  import opened Basics
  import opened Chunks
  import TimeTags

  type TimeTag = TimeTags.TimeTag
  type U32 = x: int | 0 <= x < 0x1_0000_0000

  // Cause of transmission: six bits, of which these values are known.
  datatype Cause =
    | Periodic | Background | Spontaneous | Initialized | Request | Activation | ActivationCon
    | Deactivation | DeactivationCon | ActivationTermination | Interrogated
    | UnknownType | UnknownCause | UnknownCommonAddress | UnknownObjectAddress

  function CauseCode(c: Cause): Octet {
    match c
    case Periodic => 1
    case Background => 2
    case Spontaneous => 3
    case Initialized => 4
    case Request => 5
    case Activation => 6
    case ActivationCon => 7
    case Deactivation => 8
    case DeactivationCon => 9
    case ActivationTermination => 10
    case Interrogated => 20
    case UnknownType => 44
    case UnknownCause => 45
    case UnknownCommonAddress => 46
    case UnknownObjectAddress => 47
  }

  function CauseFrom(v: Octet): Option<Cause> {
    match v
    case 1 => Some(Periodic)
    case 2 => Some(Background)
    case 3 => Some(Spontaneous)
    case 4 => Some(Initialized)
    case 5 => Some(Request)
    case 6 => Some(Activation)
    case 7 => Some(ActivationCon)
    case 8 => Some(Deactivation)
    case 9 => Some(DeactivationCon)
    case 10 => Some(ActivationTermination)
    case 20 => Some(Interrogated)
    case 44 => Some(UnknownType)
    case 45 => Some(UnknownCause)
    case 46 => Some(UnknownCommonAddress)
    case 47 => Some(UnknownObjectAddress)
    case _ => None
  }

  datatype Quality = Quality(overflow: bool, blocked: bool, substituted: bool, notTopical: bool, invalid: bool)

  // The flags above the low four bits.
  function HighBits(q: Quality): Octet {
    16 * Bit(q.blocked) + 32 * Bit(q.substituted) + 64 * Bit(q.notTopical) + 128 * Bit(q.invalid)
  }

  function QualityBits(q: Quality): Octet {
    HighBits(q) + Bit(q.overflow)
  }

  function QualityFrom(b: Octet, hasOverflow: bool): Quality {
    Quality(hasOverflow && b % 2 == 1, b / 16 % 2 == 1, b / 32 % 2 == 1, b / 64 % 2 == 1, b / 128 == 1)
  }

  // A short floating point number, as its four octets.
  datatype Float32 = Float32(b0: Octet, b1: Octet, b2: Octet, b3: Octet)

  datatype Element =
    | SinglePoint(on: bool, quality: Quality)
    | SinglePointTime(on: bool, quality: Quality, time: TimeTag)
    | Measured(value: Float32, quality: Quality)
    | MeasuredTime(value: Float32, quality: Quality, time: TimeTag)
    | EndOfInit(coi: Octet)
    | SingleCommand(on: bool, select: bool, qualifier: Octet)
    | Setpoint(value: Float32, select: bool, qualifier: Octet)
    | Interrogation(qoi: Octet)
    | ClockSync(time: TimeTag)

  function TypeId(e: Element): Octet {
    match e
    case SinglePoint(_, _) => 1
    case Measured(_, _) => 13
    case SinglePointTime(_, _, _) => 30
    case MeasuredTime(_, _, _) => 36
    case SingleCommand(_, _, _) => 45
    case Setpoint(_, _, _) => 50
    case EndOfInit(_) => 70
    case Interrogation(_) => 100
    case ClockSync(_) => 103
  }

  // Octets of an element of a supported type.
  function Size(typeId: Octet): Option<nat> {
    if typeId == 1 || typeId == 45 || typeId == 70 || typeId == 100 then Some(1)
    else if typeId == 13 || typeId == 50 then Some(5)
    else if typeId == 30 then Some(8)
    else if typeId == 36 then Some(12)
    else if typeId == 103 then Some(7)
    else None
  }

  function FloatOctets(v: Float32): seq<Octet> {
    [v.b0, v.b1, v.b2, v.b3]
  }

  function ElementEncoding(e: Element): seq<Octet> {
    match e
    case SinglePoint(on, quality) => [HighBits(quality) + Bit(on)]
    case SinglePointTime(on, quality, time) => [HighBits(quality) + Bit(on)] + TimeTags.Encoding(time)
    case Measured(value, quality) => FloatOctets(value) + [QualityBits(quality)]
    case MeasuredTime(value, quality, time) =>
      FloatOctets(value) + [QualityBits(quality)] + TimeTags.Encoding(time)
    case EndOfInit(coi) => [coi]
    case SingleCommand(on, select, qualifier) => [Bit(on) + qualifier % 32 * 4 + 128 * Bit(select)]
    case Setpoint(value, select, qualifier) => FloatOctets(value) + [qualifier % 128 + 128 * Bit(select)]
    case Interrogation(qoi) => [qoi]
    case ClockSync(time) => TimeTags.Encoding(time)
  }

  // A slice cut to the element's size always holds a whole time tag.
  function TimeAt(b: seq<Octet>, i: nat): TimeTag
    requires |b| == i + TimeTags.LEN
  {
    TimeTags.Decode(b[i..]).value
  }

  function FloatAt(b: seq<Octet>): Float32
    requires |b| >= 4
  {
    Float32(b[0], b[1], b[2], b[3])
  }

  function ElementFrom(typeId: Octet, b: seq<Octet>): Element
    requires Size(typeId) == Some(|b|)
  {
    if typeId == 1 then SinglePoint(b[0] % 2 == 1, QualityFrom(b[0], false))
    else if typeId == 30 then SinglePointTime(b[0] % 2 == 1, QualityFrom(b[0], false), TimeAt(b, 1))
    else if typeId == 13 then Measured(FloatAt(b), QualityFrom(b[4], true))
    else if typeId == 36 then MeasuredTime(FloatAt(b), QualityFrom(b[4], true), TimeAt(b, 5))
    else if typeId == 70 then EndOfInit(b[0])
    else if typeId == 45 then SingleCommand(b[0] % 2 == 1, b[0] >= 128, b[0] / 4 % 32)
    else if typeId == 50 then Setpoint(FloatAt(b), b[4] >= 128, b[4] % 128)
    else if typeId == 100 then Interrogation(b[0])
    else ClockSync(TimeAt(b, 0))
  }

  datatype Object = Object(ioa: U32, element: Element)

  datatype Asdu = Asdu(
    typeId: Octet, cause: Cause, negative: bool, test: bool, originator: Octet, commonAddress: U16,
    objects: seq<Object>)
  {
    function Mirror(cause: Cause, negative: bool): Asdu {
      this.(cause := cause, negative := negative)
    }
  }

  // Panics stands for the slice index out of bounds in the source.
  datatype AsduError =
    | Truncated
    | UnsupportedType(typeId: Octet, raw: seq<Octet>)
    | UnsupportedCause(raw: seq<Octet>)
    | Panics

  function Address(ioa: U32): seq<Octet> {
    [ioa % 256, ioa / 256 % 256, ioa / 65_536 % 256]
  }

  function AddressAt(b: seq<Octet>): U32
    requires |b| == 3
  {
    FromLe(b[0], b[1]) + 65_536 * FromLe(b[2], 0)
  }

  function ObjectEncoding(o: Object): seq<Octet> {
    Address(o.ioa) + ElementEncoding(o.element)
  }

  function ObjectFrom(typeId: Octet, b: seq<Octet>): Object
    requires |b| >= 3 && Size(typeId) == Some(|b| - 3)
  {
    Object(AddressAt(b[..3]), ElementFrom(typeId, b[3..]))
  }

  function ObjectEncodings(objects: seq<Object>): seq<seq<Octet>> {
    seq(|objects|, i requires 0 <= i < |objects| => ObjectEncoding(objects[i]))
  }

  function Header(a: Asdu): seq<Octet> {
    [a.typeId, |a.objects| % 128, CauseCode(a.cause) + 64 * Bit(a.negative) + 128 * Bit(a.test), a.originator]
    + LeBytes(a.commonAddress)
  }

  // SQ = 0: every object carries its own address.
  function Encoding(a: Asdu): seq<Octet> {
    Header(a) + Join(ObjectEncodings(a.objects))
  }

  // The objects of an SQ = 0 body.
  function Spelled(typeId: Octet, size: nat, count: nat, b: seq<Octet>): seq<Object>
    requires Size(typeId) == Some(size) && |b| >= count * (3 + size)
  {
    seq(count, k requires 0 <= k < count =>
      (Product(k, count, 3 + size); ObjectFrom(typeId, Piece(b, 3 + size, k))))
  }

  // The objects of an SQ = 1 body, behind its one address.
  function Listed(typeId: Octet, size: nat, first: U32, count: nat, b: seq<Octet>): seq<Object>
    requires Size(typeId) == Some(size) && |b| >= count * size && first + count < 0x1_0000_0000
  {
    seq(count, k requires 0 <= k < count =>
      (Product(k, count, size); Object(first + k, ElementFrom(typeId, Piece(b, size, k)))))
  }

  // What the octets before the objects and the length say.
  function Checked(b: seq<Octet>): Result<(Cause, nat), AsduError> {
    if |b| < 6 then Err(Truncated)
    else
      var cause := CauseFrom(b[2] % 64);
      match Size(b[0])
      case None => Err(UnsupportedType(b[0], b))
      case Some(size) =>
        if cause.None? then Err(UnsupportedCause(b))
        else if |b| < Expected(b[1] >= 128, b[1] % 128, size) then Err(Truncated)
        else if |b| < 9 then Err(Panics)
        else Ok((cause.value, size))
  }

  function Expected(sequence: bool, count: nat, size: nat): nat {
    if sequence then 6 + 3 + count * size else 6 + count * (3 + size)
  }

  function Assembled(b: seq<Octet>, cause: Cause, objects: seq<Object>): Asdu
    requires |b| >= 6
  {
    Asdu(b[0], cause, b[2] / 64 % 2 == 1, b[2] >= 128, b[3], FromLe(b[4], b[5]), objects)
  }

  function Decoding(b: seq<Octet>): Result<Asdu, AsduError> {
    match Checked(b)
    case Err(e) => Err(e)
    case Ok((cause, size)) =>
      var count := b[1] % 128;
      var objects := if b[1] >= 128 then Listed(b[0], size, AddressAt(b[6..9]), count, b[9..])
                     else Spelled(b[0], size, count, b[6..]);
      Ok(Assembled(b, cause, objects))
  }

  method Encode(a: Asdu) returns (out: seq<Octet>)
    ensures out == Encoding(a)
  {
    out := EncodeHeader(a);
    out := AppendObjects(out, a.objects);
  }

  method AppendObjects(header: seq<Octet>, objects: seq<Object>) returns (out: seq<Octet>)
    ensures out == header + Join(ObjectEncodings(objects))
  {
    out := header;
    ghost var pieces := ObjectEncodings(objects);
    for i := 0 to |objects|
      invariant out == header + Join(pieces[..i])
    {
      var before := out;
      out := out + Address(objects[i].ioa);
      out := out + ElementEncoding(objects[i].element);
      Appended(before, objects[i], out);
      NextPiece(header, pieces, i);
    }
    assert pieces[..|objects|] == pieces;
  }

  lemma Appended(before: seq<Octet>, o: Object, out: seq<Octet>)
    requires out == before + Address(o.ioa) + ElementEncoding(o.element)
    ensures out == before + ObjectEncoding(o)
  {
  }

  method EncodeHeader(a: Asdu) returns (out: seq<Octet>)
    ensures out == Header(a)
  {
    out := [a.typeId];
    out := out + [|a.objects| % 128];
    out := out + [CauseCode(a.cause) + 64 * Bit(a.negative) + 128 * Bit(a.test)];
    out := out + [a.originator];
    out := out + LeBytes(a.commonAddress);
  }

  method Decode(b: seq<Octet>) returns (r: Result<Asdu, AsduError>)
    ensures r == Decoding(b)
  {
    var checked := Checked(b);
    if checked.Err? {
      return Err(checked.error);
    }
    var (cause, size) := checked.value;
    var count := b[1] % 128;
    var first := AddressAt(b[6..9]);
    var objects: seq<Object>;
    if b[1] >= 128 {
      objects := TakeListed(b[0], size, first, count, b);
    } else {
      objects := TakeSpelled(b[0], size, count, b);
    }
    r := Ok(Assembled(b, cause, objects));
  }

  // The loop of Asdu::decode with SQ = 0 ...
  method TakeSpelled(typeId: Octet, size: nat, count: nat, b: seq<Octet>) returns (objects: seq<Object>)
    requires Size(typeId) == Some(size) && |b| >= 6 + count * (3 + size)
    ensures objects == Spelled(typeId, size, count, b[6..])
  {
    objects := [];
    var pos := 6;
    ghost var all := Spelled(typeId, size, count, b[6..]);
    for k := 0 to count
      invariant pos == 6 + k * (3 + size)
      invariant objects == all[..k]
    {
      SpelledAt(typeId, size, count, b, k);
      var o;
      o, pos := TakeObject(typeId, size, b, pos);
      objects := objects + [o];
    }
  }

  method TakeObject(typeId: Octet, size: nat, b: seq<Octet>, at: nat) returns (o: Object, pos: nat)
    requires Size(typeId) == Some(size) && at + 3 + size <= |b|
    ensures pos == at + 3 + size
    ensures o == ObjectFrom(typeId, b[at..pos])
  {
    pos := at;
    var ioa := AddressAt(b[pos..pos + 3]);
    pos := pos + 3;
    var element := TakeElement(typeId, size, b, pos);
    o := Object(ioa, element);
    pos := pos + size;
    assert b[at..pos][..3] == b[at..at + 3] && b[at..pos][3..] == b[at + 3..pos];
  }

  lemma SpelledAt(typeId: Octet, size: nat, count: nat, b: seq<Octet>, k: nat)
    requires Size(typeId) == Some(size) && |b| >= 6 + count * (3 + size) && k < count
    ensures var pos := 6 + k * (3 + size);
      && pos + 3 + size == 6 + (k + 1) * (3 + size) <= |b|
      && Spelled(typeId, size, count, b[6..])[k] == ObjectFrom(typeId, b[pos..pos + 3 + size])
  {
    Product(k, count, 3 + size);
    PieceOfRest(b, 6, 3 + size, k);
  }

  // ... and with SQ = 1.
  method TakeListed(typeId: Octet, size: nat, first: U32, count: nat, b: seq<Octet>) returns (objects: seq<Object>)
    requires Size(typeId) == Some(size) && |b| >= 9 + count * size && first + count < 0x1_0000_0000
    ensures objects == Listed(typeId, size, first, count, b[9..])
  {
    objects := [];
    var pos := 9;
    ghost var all := Listed(typeId, size, first, count, b[9..]);
    for k := 0 to count
      invariant pos == 9 + k * size
      invariant objects == all[..k]
    {
      ListedAt(typeId, size, first, count, b, k);
      var o;
      o, pos := TakeNumbered(typeId, size, first + k, b, pos);
      objects := objects + [o];
    }
  }

  method TakeNumbered(typeId: Octet, size: nat, ioa: U32, b: seq<Octet>, at: nat) returns (o: Object, pos: nat)
    requires Size(typeId) == Some(size) && at + size <= |b|
    ensures pos == at + size
    ensures o == Object(ioa, ElementFrom(typeId, b[at..pos]))
  {
    var element := TakeElement(typeId, size, b, at);
    o, pos := Object(ioa, element), at + size;
  }

  method TakeElement(typeId: Octet, size: nat, b: seq<Octet>, pos: nat) returns (element: Element)
    requires Size(typeId) == Some(size) && pos + size <= |b|
    ensures element == ElementFrom(typeId, b[pos..pos + size])
  {
    element := ElementFrom(typeId, b[pos..pos + size]);
  }

  lemma ListedAt(typeId: Octet, size: nat, first: U32, count: nat, b: seq<Octet>, k: nat)
    requires Size(typeId) == Some(size) && |b| >= 9 + count * size && first + count < 0x1_0000_0000 && k < count
    ensures var pos := 9 + k * size;
      && pos + size == 9 + (k + 1) * size <= |b|
      && Listed(typeId, size, first, count, b[9..])[k] == Object(first + k, ElementFrom(typeId, b[pos..pos + size]))
  {
    Product(k, count, size);
    PieceOfRest(b, 9, size, k);
  }

  function MirrorRaw(raw: seq<Octet>, cause: Cause): seq<Octet> {
    if |raw| > 2 then raw[2 := raw[2] / 128 * 128 + 64 + CauseCode(cause)] else raw
  }
}
