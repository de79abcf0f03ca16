/**
 Lists of information objects (src/asdu/mproc.rs, src/asdu/codec.rs): laying them out behind one
 another, with every address or with the first only, and reading them back. Also the segment of a
 file (src/asdu/filet.rs), the one object that carries its own length.
 */
module ObjectLists {
  import opened Octets
  import opened AsduCodec
  import opened ProcessInfo

  /**
   How the objects of one type are written: the width of a value, which a getter reads first, the
   width of the time tag behind it, and none when the type is not one the builder and getter know.
   */
  datatype Codec<!V> = Codec(valueSize: nat, tagSize: Option<nat>, encode: V -> seq<byte>, decode: seq<byte> --> V) {
    ghost predicate Valid() { forall b: seq<byte> :: |b| == valueSize ==> decode.requires(b) }
  }

  datatype Info<V> = Info(ioa: Word, value: V, tag: seq<byte>)

  // ---- the specification ----

  function EncodeAddr(p: Params, ioa: Word): Result<seq<byte>> {
    if 1 <= p.infoObjAddrSize <= 3 then
      if ioa < Pow256(p.infoObjAddrSize) then Ok(Le(ioa, p.infoObjAddrSize)) else Err(InfoObjAddrFit)
    else Err(ParamInvalid)
  }

  predicate WritesAddr(isSequence: bool, i: nat) { !isSequence || i == 0 }

  /** The octets of the object at index i: its address if it carries one, its value, its tag. */
  function ObjectOctets<V>(p: Params, c: Codec<V>, isSequence: bool, i: nat, v: Info<V>): Result<seq<byte>> {
    match if WritesAddr(isSequence, i) then EncodeAddr(p, v.ioa) else Ok([])
    case Err(e) => Err(e)
    case Ok(addr) =>
      if c.tagSize.None? then Err(TypeIdNotMatch) else Ok(addr + c.encode(v.value) + v.tag)
  }

  /** The octets of the objects from index i on. */
  function Objects<V>(p: Params, c: Codec<V>, isSequence: bool, infos: seq<Info<V>>, i: nat): Result<seq<byte>>
    requires i <= |infos|
    decreases |infos| - i
  {
    if i == |infos| then Ok([])
    else
      match ObjectOctets(p, c, isSequence, i, infos[i])
      case Err(e) => Err(e)
      case Ok(b) =>
        match Objects(p, c, isSequence, infos, i + 1)
        case Err(e) => Err(e)
        case Ok(rest) => Ok(b + rest)
  }

  /** What every send helper checks first. */
  function CheckValid(p: Params, t: byte, isSequence: bool, n: nat): Option<Error> {
    if n == 0 then Some(NotAnyObjInfo)
    else
      match InfoObjSize(t)
      case None => Some(TypeIdentifier)
      case Some(objSize) =>
        if !p.Valid() then Some(ParamInvalid)
        else
          var addr: int := p.infoObjAddrSize;
          var len := if isSequence then p.IdentifierSize() + n * objSize + addr
                     else p.IdentifierSize() + n * (objSize + addr);
          if len > ASDU_SIZE_MAX then Some(LengthOutOfRange) else None
  }

  function Start(p: Params, t: byte, isSequence: bool, coa: CauseOfTransmission, ca: CommonAddr, n: nat): Result<Asdu> {
    match CheckValid(p, t, isSequence, n)
    case Some(e) => Err(e)
    case None =>
      if n >= 128 then Err(InfoObjIndexFit)
      else Ok(Asdu(p, Identifier(t, VariableStruct(n, isSequence), coa, 0, ca), []))
  }

  function Build<V>(p: Params, c: Codec<V>, t: byte, isSequence: bool, coa: CauseOfTransmission, ca: CommonAddr, infos: seq<Info<V>>)
    : Result<Asdu>
  {
    match Start(p, t, isSequence, coa, ca, |infos|)
    case Err(e) => Err(e)
    case Ok(u) =>
      match Objects(p, c, isSequence, infos, 0)
      case Err(e) => Err(e)
      case Ok(b) => Ok(u.(infoObj := b))
  }

  function ReadAddr(p: Params, b: seq<byte>): Result<Word> {
    if 1 <= p.infoObjAddrSize <= 3 then
      if |b| < p.infoObjAddrSize then Err(UnexpectedEof)
      else
        LeOnto(b[..p.infoObjAddrSize]);
        assert Pow256(1) == 0x100 && Pow256(2) == 0x1_0000 && Pow256(3) == 0x100_0000;
        Ok(FromLe(b[..p.infoObjAddrSize]))
    else Err(ParamInvalid)
  }

  /** What the address of the object at index i leaves of the payload. */
  function AfterAddr(p: Params, isSequence: bool, i: nat, b: seq<byte>): seq<byte> {
    if WritesAddr(isSequence, i) && |b| >= p.infoObjAddrSize then b[p.infoObjAddrSize..] else b
  }

  function AddrAt(p: Params, isSequence: bool, i: nat, previous: Word, b: seq<byte>): Result<Word> {
    if WritesAddr(isSequence, i) then ReadAddr(p, b) else Ok((previous + 1) % 0x1_0000_0000)
  }

  /** A value and its tag, and what they leave of the payload. */
  function ReadBody<V>(c: Codec<V>, ioa: Word, body: seq<byte>): Result<(Info<V>, seq<byte>)>
    requires c.Valid()
  {
    if |body| < c.valueSize then Err(UnexpectedEof)
    else
      match c.tagSize
      case None => Err(TypeIdNotMatch)
      case Some(tagSize) =>
        var end := c.valueSize + tagSize;
        if |body| < end then Err(UnexpectedEof)
        else Ok((Info(ioa, c.decode(body[..c.valueSize]), body[c.valueSize..end]), body[end..]))
  }

  /** The object at index i of a payload of which b is left, and what it leaves. */
  function ReadObject<V>(p: Params, c: Codec<V>, isSequence: bool, b: seq<byte>, i: nat, previous: Word): Result<(Info<V>, seq<byte>)>
    requires c.Valid()
  {
    match AddrAt(p, isSequence, i, previous, b)
    case Err(e) => Err(e)
    case Ok(ioa) => ReadBody(c, ioa, AfterAddr(p, isSequence, i, b))
  }

  /** The objects from index i to n of a payload of which b is left. */
  function ReadObjects<V>(p: Params, c: Codec<V>, isSequence: bool, b: seq<byte>, n: nat, i: nat, previous: Word)
    : Result<seq<Info<V>>>
    requires c.Valid() && i <= n
    decreases n - i
  {
    if i == n then Ok([])
    else
      match ReadObject(p, c, isSequence, b, i, previous)
      case Err(e) => Err(e)
      case Ok((v, left)) =>
        match ReadObjects(p, c, isSequence, left, n, i + 1, v.ioa)
        case Err(e) => Err(e)
        case Ok(rest) => Ok([v] + rest)
  }

  function Get<V>(a: Asdu, c: Codec<V>): Result<seq<Info<V>>>
    requires c.Valid()
  {
    ReadObjects(a.params, c, a.identifier.variable.isSequence, a.infoObj, a.identifier.variable.number, 0, 0)
  }

  const CAUSE_SPONTANEOUS: byte := 3

  /** The packed events of protection equipment: spontaneous, and always exactly one object. */
  function BuildOne<V>(p: Params, c: Codec<V>, t: byte, coa: CauseOfTransmission, ca: CommonAddr, v: Info<V>): Result<Asdu> {
    if coa.cause != CAUSE_SPONTANEOUS then Err(CmdCause) else Build(p, c, t, false, coa, ca, [v])
  }

  function GetOne<V>(a: Asdu, c: Codec<V>): Result<Info<V>>
    requires c.Valid()
  {
    if a.identifier.variable.isSequence || a.identifier.variable.number != 1 then Err(InfoObjIndexFit)
    else
      match ReadObject(a.params, c, false, a.infoObj, 0, 0)
      case Err(e) => Err(e)
      case Ok((v, _)) => Ok(v)
  }

  // ---- the program's form ----

  /** Appends information elements to a payload. */
  class Encoder {
    const params: Params
    var buf: seq<byte>

    constructor (p: Params)
      ensures params == p && buf == []
    {
      params, buf := p, [];
    }

    method Append(b: seq<byte>)
      modifies this
      ensures buf == old(buf) + b
    {
      buf := buf + b;
    }

    method InfoObjAddr(ioa: Word) returns (r: Result<()>)
      modifies this
      ensures match EncodeAddr(params, ioa)
              case Ok(b) => r == Ok(()) && buf == old(buf) + b
              case Err(e) => r == Err(e) && buf == old(buf)
    {
      AddrLimits();
      if params.infoObjAddrSize == 1 {
        if ioa > 255 { return Err(InfoObjAddrFit); }
        LeOne(ioa);
        buf := buf + [ioa];
      } else if params.infoObjAddrSize == 2 {
        if ioa > 65535 { return Err(InfoObjAddrFit); }
        LeTwo(ioa);
        buf := buf + [ioa % 256, ioa / 256];
      } else if params.infoObjAddrSize == 3 {
        if ioa > 16_777_215 { return Err(InfoObjAddrFit); }
        LeThree(ioa);
        buf := buf + [ioa % 256, ioa / 256 % 256, ioa / 256 / 256];
      } else {
        return Err(ParamInvalid);
      }
      return Ok(());
    }
  }

  lemma LeOne(n: nat)
    ensures Le(n, 1) == [n % 256]
  {
    assert Le(n / 256, 0) == [];
  }

  lemma LeTwo(n: nat)
    ensures Le(n, 2) == [n % 256, n / 256 % 256]
  {
    LeOne(n / 256);
    assert Le(n, 2) == [n % 256] + Le(n / 256, 1);
  }

  lemma LeThree(n: nat)
    ensures Le(n, 3) == [n % 256, n / 256 % 256, n / 256 / 256 % 256]
  {
    LeTwo(n / 256);
    assert Le(n, 3) == [n % 256] + Le(n / 256, 2);
  }

  lemma AddrLimits()
    ensures Pow256(1) == 0x100 && Pow256(2) == 0x1_0000 && Pow256(3) == 0x100_0000
  {
  }

  method AppendObject<V>(e: Encoder, c: Codec<V>, isSequence: bool, i: nat, v: Info<V>) returns (r: Result<()>)
    modifies e
    ensures match ObjectOctets(e.params, c, isSequence, i, v)
            case Ok(b) => r == Ok(()) && e.buf == old(e.buf) + b
            case Err(f) => r == Err(f)
  {
    if WritesAddr(isSequence, i) {
      var w := e.InfoObjAddr(v.ioa);
      if w.Err? { return Err(w.error); }
    }
    if c.tagSize.None? { return Err(TypeIdNotMatch); }
    e.Append(c.encode(v.value));
    e.Append(v.tag);
    return Ok(());
  }

  lemma Regroup<T>(a: seq<T>, b: seq<T>, c: seq<T>)
    ensures a + (b + c) == (a + b) + c
  {
  }

  /** A `*_with_type` builder: the loop that appends object after object. */
  method BuildObjects<V>(p: Params, c: Codec<V>, t: byte, isSequence: bool, coa: CauseOfTransmission, ca: CommonAddr, infos: seq<Info<V>>)
    returns (r: Result<Asdu>)
    ensures r == Build(p, c, t, isSequence, coa, ca, infos)
  {
    var u := Start(p, t, isSequence, coa, ca, |infos|);
    if u.Err? { return Err(u.error); }
    var e := new Encoder(p);
    ghost var all := Objects(p, c, isSequence, infos, 0);
    var i := 0;
    assert all.Ok? ==> [] + all.value == all.value;
    while i < |infos|
      invariant 0 <= i <= |infos|
      invariant match Objects(p, c, isSequence, infos, i)
                case Ok(rest) => all == Ok(e.buf + rest)
                case Err(f) => all == Err(f)
    {
      ghost var before := e.buf;
      var w := AppendObject(e, c, isSequence, i, infos[i]);
      if w.Err? { return Err(w.error); }
      ghost var rest := Objects(p, c, isSequence, infos, i + 1);
      if rest.Ok? {
        Regroup(before, ObjectOctets(p, c, isSequence, i, infos[i]).value, rest.value);
      }
      i := i + 1;
    }
    assert e.buf + [] == e.buf;
    return Ok(u.value.(infoObj := e.buf));
  }

  /** Reads information elements out of a payload, leaving it intact. */
  class InfoObjReader {
    const params: Params
    const buf: seq<byte>
    var pos: nat

    predicate Valid()
      reads this
    {
      pos <= |buf|
    }

    function Rest(): seq<byte>
      reads this
      requires Valid()
    {
      buf[pos..]
    }

    constructor (a: Asdu)
      ensures Valid() && params == a.params && Rest() == a.infoObj
    {
      params, buf, pos := a.params, a.infoObj, 0;
    }

    method Take(n: nat) returns (r: Result<seq<byte>>)
      requires Valid()
      modifies this
      ensures Valid()
      ensures if n > |old(Rest())| then r == Err(UnexpectedEof) && Rest() == old(Rest())
              else r == Ok(old(Rest())[..n]) && Rest() == old(Rest())[n..]
    {
      if pos + n > |buf| { return Err(UnexpectedEof); }
      r := Ok(buf[pos..pos + n]);
      assert buf[pos..][..n] == buf[pos..pos + n] && buf[pos..][n..] == buf[pos + n..];
      pos := pos + n;
    }

    method NextObjAddr(i: nat, isSequence: bool, previous: Word) returns (r: Result<Word>)
      requires Valid()
      modifies this
      ensures Valid() && r == AddrAt(params, isSequence, i, previous, old(Rest()))
      ensures r.Ok? ==> Rest() == AfterAddr(params, isSequence, i, old(Rest()))
    {
      if isSequence && i != 0 {
        return Ok((previous + 1) % 0x1_0000_0000);
      }
      if params.infoObjAddrSize == 0 || params.infoObjAddrSize > 3 { return Err(ParamInvalid); }
      var b := Take(params.infoObjAddrSize);
      if b.Err? { return Err(b.error); }
      LeOnto(b.value);
      AddrLimits();
      return Ok(FromLe(b.value));
    }
  }

  lemma Split(b: seq<byte>, n: nat, k: nat)
    requires n + k <= |b|
    ensures b[n..][..k] == b[n..n + k] && b[n..][k..] == b[n + k..]
  {
  }

  method ReadValue<V>(reader: InfoObjReader, c: Codec<V>, ioa: Word) returns (r: Result<Info<V>>)
    requires reader.Valid() && c.Valid()
    modifies reader
    ensures reader.Valid()
    ensures match ReadBody(c, ioa, old(reader.Rest()))
            case Ok((v, left)) => r == Ok(v) && reader.Rest() == left
            case Err(e) => r == Err(e)
  {
    ghost var body := reader.Rest();
    var value := reader.Take(c.valueSize);
    if value.Err? { return Err(value.error); }
    if c.tagSize.None? { return Err(TypeIdNotMatch); }
    var tag := reader.Take(c.tagSize.value);
    if tag.Err? { return Err(tag.error); }
    Split(body, c.valueSize, c.tagSize.value);
    return Ok(Info(ioa, c.decode(value.value), tag.value));
  }

  method ReadOne<V>(reader: InfoObjReader, c: Codec<V>, isSequence: bool, i: nat, previous: Word) returns (r: Result<Info<V>>)
    requires reader.Valid() && c.Valid()
    modifies reader
    ensures reader.Valid()
    ensures match ReadObject(reader.params, c, isSequence, old(reader.Rest()), i, previous)
            case Ok((v, left)) => r == Ok(v) && reader.Rest() == left
            case Err(e) => r == Err(e)
  {
    var ioa := reader.NextObjAddr(i, isSequence, previous);
    if ioa.Err? { return Err(ioa.error); }
    r := ReadValue(reader, c, ioa.value);
  }

  /** Reading the objects from i on, after those in out, gives all. */
  ghost predicate Continues<V>(p: Params, c: Codec<V>, isSequence: bool, b: seq<byte>, n: nat, i: nat, previous: Word,
                         out: seq<Info<V>>, all: Result<seq<Info<V>>>)
    requires c.Valid() && i <= n
  {
    match ReadObjects(p, c, isSequence, b, n, i, previous)
    case Ok(rest) => all == Ok(out + rest)
    case Err(f) => all == Err(f)
  }

  lemma ContinuesStep<V>(p: Params, c: Codec<V>, isSequence: bool, b: seq<byte>, n: nat, i: nat, previous: Word,
                         out: seq<Info<V>>, all: Result<seq<Info<V>>>)
    requires c.Valid() && i < n && Continues(p, c, isSequence, b, n, i, previous, out, all)
    ensures match ReadObject(p, c, isSequence, b, i, previous)
            case Ok((v, left)) => Continues(p, c, isSequence, left, n, i + 1, v.ioa, out + [v], all)
            case Err(f) => all == Err(f)
  {
    match ReadObject(p, c, isSequence, b, i, previous)
    case Err(_) =>
    case Ok((v, left)) =>
      var rest := ReadObjects(p, c, isSequence, left, n, i + 1, v.ioa);
      if rest.Ok? { Regroup(out, [v], rest.value); }
  }

  method ReadNext<V>(reader: InfoObjReader, c: Codec<V>, isSequence: bool, n: nat, i: nat, previous: Word,
                     ghost out: seq<Info<V>>, ghost all: Result<seq<Info<V>>>) returns (r: Result<Info<V>>)
    requires reader.Valid() && c.Valid() && i < n
    requires Continues(reader.params, c, isSequence, reader.Rest(), n, i, previous, out, all)
    modifies reader
    ensures reader.Valid()
    ensures match r
            case Ok(v) => Continues(reader.params, c, isSequence, reader.Rest(), n, i + 1, v.ioa, out + [v], all)
            case Err(f) => all == Err(f)
  {
    ContinuesStep(reader.params, c, isSequence, reader.Rest(), n, i, previous, out, all);
    r := ReadOne(reader, c, isSequence, i, previous);
  }

  lemma ContinuesFromStart<V>(a: Asdu, c: Codec<V>)
    requires c.Valid()
    ensures Continues(a.params, c, a.identifier.variable.isSequence, a.infoObj, a.identifier.variable.number, 0, 0, [], Get(a, c))
  {
    if Get(a, c).Ok? {
      assert [] + Get(a, c).value == Get(a, c).value;
    }
  }

  /** A `get_*` method: the loop that reads object after object. */
  method GetObjects<V>(a: Asdu, c: Codec<V>) returns (r: Result<seq<Info<V>>>)
    requires c.Valid()
    ensures r == Get(a, c)
  {
    var isSequence, n: nat := a.identifier.variable.isSequence, a.identifier.variable.number;
    var reader := new InfoObjReader(a);
    var out: seq<Info<V>> := [];
    var ioa: Word := 0;
    var i: nat := 0;
    ghost var all := Get(a, c);
    ContinuesFromStart(a, c);
    while i < n
      invariant 0 <= i <= n && reader.Valid() && reader.params == a.params
      invariant Continues(a.params, c, isSequence, reader.Rest(), n, i, ioa, out, all)
    {
      var v := ReadNext(reader, c, isSequence, n, i, ioa, out, all);
      if v.Err? { return Err(v.error); }
      ioa := v.value.ioa;
      out := out + [v.value];
      i := i + 1;
    }
    assert out + [] == out;
    return Ok(out);
  }

  /** A getter of packed events. */
  method GetOneObject<V>(a: Asdu, c: Codec<V>) returns (r: Result<Info<V>>)
    requires c.Valid()
    ensures r == GetOne(a, c)
  {
    if a.identifier.variable.isSequence || a.identifier.variable.number != 1 {
      return Err(InfoObjIndexFit);
    }
    var reader := new InfoObjReader(a);
    r := ReadOne(reader, c, false, 0, 0);
  }
}
