/**
 The application service data unit (src/asdu/codec.rs, src/asdu/identifier.rs): its identifier, the
 size its type and qualifier imply, and the codec between it and the octets of a frame.

 Bits of an octet are disjoint, so ORs of them are written as sums and tests as digits.
 */
module AsduCodec {
  import opened Octets

  const ASDU_SIZE_MAX: nat := 249
  const INVALID_COMMON_ADDR: CommonAddr := 0
  const GLOBAL_COMMON_ADDR: CommonAddr := 65535
  const F_SG_NA_1: byte := 125
  const F_DR_TA_1: byte := 126

  type CommonAddr = a: int | 0 <= a < 65536

  datatype Params = Params(causeSize: byte, commonAddrSize: byte, infoObjAddrSize: byte, allowTrailing: bool) {
    predicate Valid() { 1 <= causeSize <= 2 && 1 <= commonAddrSize <= 2 && 1 <= infoObjAddrSize <= 3 }

    function IdentifierSize(): nat {
      var cause: int, addr: int := causeSize, commonAddrSize;
      2 + cause + addr
    }

    function Strict(): Params { this.(allowTrailing := false) }
  }

  datatype VariableStruct = VariableStruct(number: byte, isSequence: bool)

  datatype CauseOfTransmission = CauseOfTransmission(isTest: bool, isNegative: bool, cause: byte)

  datatype Identifier = Identifier(
    typeId: byte, variable: VariableStruct, coa: CauseOfTransmission, origAddr: byte, commonAddr: CommonAddr)

  datatype Asdu = Asdu(params: Params, identifier: Identifier, infoObj: seq<byte>)

  /** Octets of one information element of a type, without its address; None for types that cannot be sized. */
  function InfoObjSize(t: byte): Option<nat> {
    if t in {1, 3} then Some(1)
    else if t in {2, 4} then Some(4)
    else if t == 5 then Some(2)
    else if t in {6, 7, 13, 15, 20} then Some(5)
    else if t in {8, 14, 16} then Some(8)
    else if t in {9, 11} then Some(3)
    else if t in {10, 12, 17} then Some(6)
    else if t in {18, 19} then Some(7)
    else if t == 21 then Some(2)
    else if t in {30, 31} then Some(8)
    else if t == 32 then Some(9)
    else if t in {33, 36, 37} then Some(12)
    else if t in {34, 35, 38} then Some(10)
    else if t in {39, 40} then Some(11)
    else if t in {45, 46, 47} then Some(1)
    else if t in {48, 49} then Some(3)
    else if t == 50 then Some(5)
    else if t == 51 then Some(4)
    else if t in {58, 59, 60} then Some(8)
    else if t in {61, 62} then Some(10)
    else if t == 63 then Some(12)
    else if t == 64 then Some(11)
    else if t in {70, 100, 101} then Some(1)
    else if t == 102 then Some(0)
    else if t == 103 then Some(7)
    else if t == 104 then Some(2)
    else if t == 105 then Some(1)
    else if t == 106 then Some(2)
    else if t == 107 then Some(9)
    else if t in {110, 111} then Some(3)
    else if t == 112 then Some(5)
    else if t == 113 then Some(1)
    else if t == 120 then Some(6)
    else if t == 121 then Some(7)
    else if t == 122 then Some(4)
    else if t == 123 then Some(5)
    else if t == 124 then Some(4)
    else if t == F_DR_TA_1 then Some(13)
    else None
  }

  function VariableValue(v: VariableStruct): byte {
    if v.isSequence then v.number % 128 + 128 else v.number
  }

  function ParseVariable(b: byte): VariableStruct { VariableStruct(b % 128, b >= 128) }

  function CauseValue(c: CauseOfTransmission): byte {
    c.cause % 64 + (if c.isNegative then 64 else 0) + (if c.isTest then 128 else 0)
  }

  function ParseCause(b: byte): CauseOfTransmission { CauseOfTransmission(b >= 128, b / 64 % 2 == 1, b % 64) }

  // ---- the size a type and a qualifier imply ----

  /** Objects that carry their own length: None for every type but the segment. */
  function VariableInfoObjSize(p: Params, t: byte, infoObj: seq<byte>): Option<nat> {
    if t != F_SG_NA_1 then None
    else
      var addr: int := p.infoObjAddrSize;
      if |infoObj| < addr + 4 then Some(0)
      else
        var los: int := infoObj[addr + 3];
        Some(addr + 4 + los)
  }

  function FixedSize(p: Params, v: VariableStruct, objSize: nat): nat {
    var n: int, addr: int := v.number, p.infoObjAddrSize;
    if v.isSequence then addr + n * objSize else n * (addr + objSize)
  }

  function ExpectedSize(p: Params, t: byte, v: VariableStruct, infoObj: seq<byte>): Result<nat> {
    if v.number == 0 || v.number > 127
       || (120 <= t <= 126 && (v.isSequence || (t != F_DR_TA_1 && v.number != 1))) then Err(InfoObjIndexFit)
    else
      match VariableInfoObjSize(p, t, infoObj)
      case Some(size) => if size == 0 then Err(UnexpectedEof) else Ok(size)
      case None =>
        match InfoObjSize(t)
        case None => Err(TypeIdentifier)
        case Some(objSize) =>
          if FixedSize(p, v, objSize) == 0 then Err(InfoObjIndexFit) else Ok(FixedSize(p, v, objSize))
  }

  /** The payload trimmed to its implied length. */
  function FixInfoObjSize(p: Params, t: byte, v: VariableStruct, infoObj: seq<byte>): Result<seq<byte>> {
    match ExpectedSize(p, t, v, infoObj)
    case Err(e) => Err(e)
    case Ok(size) =>
      if size > |infoObj| then Err(UnexpectedEof)
      else if size < |infoObj| && !p.allowTrailing then Err(TrailingOctets)
      else Ok(infoObj[..size])
  }

  // ---- the codec ----

  predicate Sizeable(t: byte) { InfoObjSize(t).Some? || t == F_SG_NA_1 }

  function EncodeCommonAddr(a: CommonAddr, size: byte): seq<byte> {
    if size == 1 then [if a == GLOBAL_COMMON_ADDR then 255 else a % 256] else [a % 256, a / 256]
  }

  function DecodeCommonAddr(b: seq<byte>): CommonAddr {
    if |b| == 1 then (if b[0] == 255 then GLOBAL_COMMON_ADDR else b[0])
    else if |b| == 2 then
      var low: int, high: int := b[0], b[1];
      low + 256 * high
    else 0
  }

  function Header(p: Params, id: Identifier): seq<byte> {
    [id.typeId, VariableValue(id.variable), CauseValue(id.coa)]
    + (if p.causeSize == 2 then [id.origAddr] else [])
    + EncodeCommonAddr(id.commonAddr, p.commonAddrSize)
  }

  function Marshal(a: Asdu): Result<seq<byte>> {
    var id, p := a.identifier, a.params;
    if !p.Valid() then Err(ParamInvalid)
    else if id.typeId == 0 || id.variable.number == 0 || id.variable.number > 127 then Err(InfoObjIndexFit)
    else if id.coa.cause == 0 then Err(CauseZero)
    else if id.commonAddr == INVALID_COMMON_ADDR then Err(CommonAddrZero)
    else if p.commonAddrSize == 1 && id.commonAddr != GLOBAL_COMMON_ADDR && id.commonAddr >= 255 then Err(ParamInvalid)
    else if p.IdentifierSize() + |a.infoObj| > ASDU_SIZE_MAX then Err(LengthOutOfRange)
    else if Sizeable(id.typeId) && FixInfoObjSize(p.Strict(), id.typeId, id.variable, a.infoObj).Err? then
      Err(FixInfoObjSize(p.Strict(), id.typeId, id.variable, a.infoObj).error)
    else Ok(Header(p, id) + a.infoObj)
  }

  function ParseIdentifier(p: Params, raw: seq<byte>): Identifier
    requires p.Valid() && |raw| >= p.IdentifierSize()
  {
    Identifier(raw[0], ParseVariable(raw[1]), ParseCause(raw[2]), if p.causeSize == 1 then 0 else raw[3],
               DecodeCommonAddr(raw[p.IdentifierSize() - p.commonAddrSize..p.IdentifierSize()]))
  }

  function Unmarshal(p: Params, raw: seq<byte>): Result<Asdu> {
    if !p.Valid() then Err(ParamInvalid)
    else if |raw| > ASDU_SIZE_MAX then Err(LengthOutOfRange)
    else if p.IdentifierSize() > |raw| then Err(UnexpectedEof)
    else
      var id := ParseIdentifier(p, raw);
      match FixInfoObjSize(p, id.typeId, id.variable, raw[p.IdentifierSize()..])
      case Err(e) => Err(e)
      case Ok(infoObj) => Ok(Asdu(p, id, infoObj))
  }

  /** An ASDU whose payload the program trims in place. */
  class Message {
    const params: Params
    const identifier: Identifier
    var infoObj: seq<byte>

    constructor (p: Params, id: Identifier, payload: seq<byte>)
      ensures View() == Asdu(p, id, payload)
    {
      params, identifier, infoObj := p, id, payload;
    }

    function View(): Asdu
      reads this
    {
      Asdu(params, identifier, infoObj)
    }

    method FixSize() returns (r: Result<()>)
      modifies this
      ensures match FixInfoObjSize(params, identifier.typeId, identifier.variable, old(infoObj))
              case Ok(kept) => r == Ok(()) && infoObj == kept
              case Err(e) => r == Err(e) && infoObj == old(infoObj)
    {
      var expected := ExpectedSize(params, identifier.typeId, identifier.variable, infoObj);
      if expected.Err? {
        return Err(expected.error);
      }
      var size := expected.value;
      if size > |infoObj| {
        return Err(UnexpectedEof);
      }
      if size < |infoObj| {
        if !params.allowTrailing {
          return Err(TrailingOctets);
        }
        infoObj := infoObj[..size];
      }
      return Ok(());
    }
  }

  /** The buffer filled octet by octet. */
  method MarshalBinary(a: Asdu) returns (r: Result<seq<byte>>)
    ensures r == Marshal(a)
  {
    var p, id := a.params, a.identifier;
    if !p.Valid() { return Err(ParamInvalid); }
    if id.typeId == 0 || id.variable.number == 0 || id.variable.number > 127 { return Err(InfoObjIndexFit); }
    if id.coa.cause == 0 { return Err(CauseZero); }
    if id.commonAddr == INVALID_COMMON_ADDR { return Err(CommonAddrZero); }
    if p.commonAddrSize == 1 && id.commonAddr != GLOBAL_COMMON_ADDR && id.commonAddr >= 255 { return Err(ParamInvalid); }
    if p.IdentifierSize() + |a.infoObj| > ASDU_SIZE_MAX { return Err(LengthOutOfRange); }
    if Sizeable(id.typeId) {
      var checked := new Message(p.Strict(), id, a.infoObj);
      var fixed := checked.FixSize();
      if fixed.Err? { return Err(fixed.error); }
    }
    var raw: seq<byte> := [];
    raw := raw + [id.typeId];
    raw := raw + [VariableValue(id.variable)];
    raw := raw + [CauseValue(id.coa)];
    if p.causeSize == 2 {
      raw := raw + [id.origAddr];
    }
    raw := raw + EncodeCommonAddr(id.commonAddr, p.commonAddrSize);
    assert raw == Header(p, id);
    raw := raw + a.infoObj;
    return Ok(raw);
  }

  method UnmarshalBinary(p: Params, raw: seq<byte>) returns (r: Result<Asdu>)
    ensures r == Unmarshal(p, raw)
  {
    if !p.Valid() { return Err(ParamInvalid); }
    if |raw| > ASDU_SIZE_MAX { return Err(LengthOutOfRange); }
    var lenDui := p.IdentifierSize();
    if lenDui > |raw| { return Err(UnexpectedEof); }
    var m := new Message(p, ParseIdentifier(p, raw), raw[lenDui..]);
    var fixed := m.FixSize();
    if fixed.Err? { return Err(fixed.error); }
    return Ok(m.View());
  }

  // ---- the octets of the identifier ----

  lemma VariableRoundTrip(v: VariableStruct, b: byte)
    ensures v.number < 128 ==> ParseVariable(VariableValue(v)) == v
    ensures VariableValue(ParseVariable(b)) == b
  {
  }

  lemma CauseRoundTrip(c: CauseOfTransmission, b: byte)
    ensures ParseCause(CauseValue(c)) == c.(cause := c.cause % 64)
    ensures CauseValue(ParseCause(b)) == b
  {
  }

  lemma CommonAddrRoundTrip(a: CommonAddr, size: byte, b: seq<byte>)
    requires 1 <= size <= 2
    ensures size == 2 || a == GLOBAL_COMMON_ADDR || a < 255 ==> DecodeCommonAddr(EncodeCommonAddr(a, size)) == a
    ensures |b| == size ==> EncodeCommonAddr(DecodeCommonAddr(b), size) == b
    ensures |b| == size == 1 ==> DecodeCommonAddr(b) == GLOBAL_COMMON_ADDR || DecodeCommonAddr(b) < 255
    ensures |EncodeCommonAddr(a, size)| == size
  {
  }

  lemma HeaderParts(p: Params, id: Identifier, infoObj: seq<byte>)
    requires p.Valid()
    ensures var raw := Header(p, id) + infoObj;
      && |Header(p, id)| == p.IdentifierSize()
      && raw[0] == id.typeId && raw[1] == VariableValue(id.variable) && raw[2] == CauseValue(id.coa)
      && (p.causeSize == 2 ==> raw[3] == id.origAddr)
      && raw[p.IdentifierSize() - p.commonAddrSize..p.IdentifierSize()] == EncodeCommonAddr(id.commonAddr, p.commonAddrSize)
      && raw[p.IdentifierSize()..] == infoObj
  {
    CommonAddrRoundTrip(id.commonAddr, p.commonAddrSize, []);
  }

  // ---- the codec is its own inverse ----

  /** What the octets of an ASDU can carry: six bits of cause, and an originator only if there is room for one. */
  predicate Carried(a: Asdu) {
    a.identifier.coa.cause < 64 && (a.params.causeSize == 1 ==> a.identifier.origAddr == 0)
  }

  /**
   Unmarshalling what marshalling produced gives the ASDU back if and only if its type can be sized
   and its identifier fits the octets.
   */
  lemma UnmarshalMarshal(a: Asdu)
    requires Marshal(a).Ok?
    ensures Unmarshal(a.params, Marshal(a).value) == Ok(a) <==> Sizeable(a.identifier.typeId) && Carried(a)
  {
    var p, id := a.params, a.identifier;
    var raw := Marshal(a).value;
    HeaderParts(p, id, a.infoObj);
    VariableRoundTrip(id.variable, 0);
    CauseRoundTrip(id.coa, 0);
    CommonAddrRoundTrip(id.commonAddr, p.commonAddrSize, []);
    var parsed := ParseIdentifier(p, raw);
    assert parsed == id.(coa := id.coa.(cause := id.coa.cause % 64), origAddr := if p.causeSize == 1 then 0 else id.origAddr);
    TrimmedNothing(p, id, a.infoObj);
  }

  /** The implied size does not depend on what follows the object that carries it, nor on leniency. */
  lemma SizeSettled(p: Params, q: Params, t: byte, v: VariableStruct, infoObj: seq<byte>, kept: seq<byte>)
    requires q.infoObjAddrSize == p.infoObjAddrSize
    requires kept == infoObj || (ExpectedSize(p, t, v, infoObj).Ok? && |kept| == ExpectedSize(p, t, v, infoObj).value
                                 && kept <= infoObj)
    ensures ExpectedSize(q, t, v, kept) == ExpectedSize(p, t, v, infoObj)
  {
    var addr: int := p.infoObjAddrSize;
    if t == F_SG_NA_1 && |kept| > addr + 3 {
      assert kept[addr + 3] == infoObj[addr + 3];
    }
    assert VariableInfoObjSize(q, t, kept) == VariableInfoObjSize(p, t, infoObj) || ExpectedSize(p, t, v, infoObj).Err?;
  }

  /** A payload of exactly the implied length passes, strictly or leniently, and loses nothing. */
  lemma TrimmedNothing(p: Params, id: Identifier, infoObj: seq<byte>)
    ensures FixInfoObjSize(p.Strict(), id.typeId, id.variable, infoObj).Ok? ==>
              FixInfoObjSize(p, id.typeId, id.variable, infoObj) == Ok(infoObj)
    ensures !Sizeable(id.typeId) ==> FixInfoObjSize(p, id.typeId, id.variable, infoObj).Err?
  {
    SizeSettled(p, p.Strict(), id.typeId, id.variable, infoObj, infoObj);
    assert infoObj[..|infoObj|] == infoObj;
    assert !Sizeable(id.typeId) ==> ExpectedSize(p, id.typeId, id.variable, infoObj).Err?;
  }

  /** Octets accepted as an ASDU begin with its identifier and go on with its payload. */
  lemma AcceptedOctets(p: Params, raw: seq<byte>)
    requires Unmarshal(p, raw).Ok?
    ensures var a := Unmarshal(p, raw).value;
      && |Header(p, a.identifier)| + |a.infoObj| <= |raw|
      && raw[..|Header(p, a.identifier)| + |a.infoObj|] == Header(p, a.identifier) + a.infoObj
      && (!p.allowTrailing ==> raw == Header(p, a.identifier) + a.infoObj)
  {
    var n := p.IdentifierSize();
    var id := ParseIdentifier(p, raw);
    var addr := raw[n - p.commonAddrSize..n];
    VariableRoundTrip(id.variable, raw[1]);
    CauseRoundTrip(id.coa, raw[2]);
    CommonAddrRoundTrip(id.commonAddr, p.commonAddrSize, addr);
    assert Header(p, id) == raw[..n];
  }

  /** What is accepted is still accepted after trimming. */
  lemma TrimmedAgain(p: Params, t: byte, v: VariableStruct, infoObj: seq<byte>)
    requires FixInfoObjSize(p, t, v, infoObj).Ok?
    ensures FixInfoObjSize(p.Strict(), t, v, FixInfoObjSize(p, t, v, infoObj).value)
            == Ok(FixInfoObjSize(p, t, v, infoObj).value)
    ensures t != 0 && Sizeable(t) && 1 <= v.number <= 127
  {
    var kept := FixInfoObjSize(p, t, v, infoObj).value;
    SizeSettled(p, p.Strict(), t, v, infoObj, kept);
    assert kept[..|kept|] == kept;
  }

  /**
   Accepted octets marshal back if and only if their cause and their common address are not zero:
   to themselves when the parameters are strict, to a prefix when they are lenient.
   */
  lemma MarshalUnmarshal(p: Params, raw: seq<byte>)
    requires Unmarshal(p, raw).Ok?
    ensures var a := Unmarshal(p, raw).value;
      var kept := raw[..p.IdentifierSize() + |a.infoObj|];
      && p.IdentifierSize() + |a.infoObj| <= |raw|
      && Marshal(a) == (if a.identifier.coa.cause == 0 then Err(CauseZero)
                        else if a.identifier.commonAddr == 0 then Err(CommonAddrZero)
                        else Ok(kept))
      && (!p.allowTrailing ==> kept == raw)
  {
    var a := Unmarshal(p, raw).value;
    var id, n := a.identifier, p.IdentifierSize();
    AcceptedOctets(p, raw);
    HeaderParts(p, id, a.infoObj);
    TrimmedAgain(p, id.typeId, id.variable, raw[n..]);
    CommonAddrRoundTrip(id.commonAddr, p.commonAddrSize, raw[n - p.commonAddrSize..n]);
  }

  // ---- inputs outside those conditions ----

  const NARROW: Params := Params(1, 1, 1, false)

  /** A single-point ASDU of the smallest configuration. */
  function Sample(t: byte, cause: byte, origAddr: byte): Asdu {
    Asdu(NARROW, Identifier(t, VariableStruct(1, false), CauseOfTransmission(false, false, cause), origAddr, 1), [1, 1])
  }

  lemma SampleMarshals(t: byte, cause: byte, origAddr: byte)
    requires cause != 0 && (t == 1 || (t != 0 && !Sizeable(t)))
    ensures Marshal(Sample(t, cause, origAddr)) == Ok([t, 1, cause % 64, 1, 1, 1])
  {
    var a := Sample(t, cause, origAddr);
    assert a.infoObj[..2] == a.infoObj;
    assert Header(NARROW, a.identifier) == [t, 1, cause % 64, 1];
    assert Header(NARROW, a.identifier) + a.infoObj == [t, 1, cause % 64, 1, 1, 1];
    if t == 1 { assert FixInfoObjSize(NARROW, t, a.identifier.variable, a.infoObj) == Ok(a.infoObj); }
  }

  lemma SampleAccepted(cause: byte, addr: byte)
    requires cause < 64 && addr < 255
    ensures Unmarshal(NARROW, [1, 1, cause, addr, 1, 1])
            == Ok(Sample(1, cause, 0).(identifier := Sample(1, cause, 0).identifier.(commonAddr := addr)))
  {
    var raw: seq<byte> := [1, 1, cause, addr, 1, 1];
    var payload: seq<byte> := [1, 1];
    assert raw[3..4] == [addr] && raw[4..] == payload && payload[..2] == payload;
    CauseRoundTrip(CauseOfTransmission(false, false, cause), 0);
    assert ParseIdentifier(NARROW, raw) == Sample(1, cause, 0).identifier.(commonAddr := addr);
  }

  /** A cause of 67 goes out as 3. */
  lemma WideCauseLost()
    ensures var a := Sample(1, 67, 0);
      Marshal(a).Ok? && Unmarshal(NARROW, Marshal(a).value) == Ok(Sample(1, 3, 0)) != Ok(a)
  {
    SampleMarshals(1, 67, 0);
    SampleMarshals(1, 3, 0);
    UnmarshalMarshal(Sample(1, 3, 0));
  }

  /** An originator has no octet when the cause has only one. */
  lemma OriginatorLost()
    ensures var a := Sample(1, 3, 7);
      Marshal(a).Ok? && Unmarshal(NARROW, Marshal(a).value) == Ok(Sample(1, 3, 0)) != Ok(a)
  {
    SampleMarshals(1, 3, 7);
    SampleMarshals(1, 3, 0);
    UnmarshalMarshal(Sample(1, 3, 0));
  }

  /** A private type goes out and is not accepted back. */
  lemma PrivateTypeRefused()
    ensures var a := Sample(200, 3, 0);
      Marshal(a).Ok? && Unmarshal(NARROW, Marshal(a).value) == Err(TypeIdentifier)
  {
    SampleMarshals(200, 3, 0);
  }

  /** Accepted octets with a zero cause, or a zero common address, do not go out again. */
  lemma ZeroesRefused()
    ensures var r := Unmarshal(NARROW, [1, 1, 0, 1, 1, 1]);
      r.Ok? && Marshal(r.value) == Err(CauseZero)
    ensures var r := Unmarshal(NARROW, [1, 1, 3, 0, 1, 1]);
      r.Ok? && Marshal(r.value) == Err(CommonAddrZero)
  {
    SampleAccepted(0, 1);
    SampleAccepted(3, 0);
  }
}
