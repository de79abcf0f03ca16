/**
 What the builders write the getters read back: for every family of process information, any valid
 parameters and any list the builder accepts. Also the segment of a file (src/asdu/filet.rs), the one
 object that carries its own length.
 */
module ObjectRoundTrip {
  import opened Octets
  import opened AsduCodec
  import opened ProcessInfo
  import opened ObjectLists

  /** A value and a tag of the widths the codec names. */
  predicate Fits<V>(c: Codec<V>, v: Info<V>) {
    c.tagSize.Some? && |v.tag| == c.tagSize.value && |c.encode(v.value)| == c.valueSize
  }

  /** A codec that writes values of its width, and reads back what mask says survives. */
  ghost predicate Faithful<V>(c: Codec<V>, mask: V -> V, v: Info<V>) {
    c.Valid() && Fits(c, v) && c.decode(c.encode(v.value)) == mask(v.value)
  }

  ghost predicate AllFaithful<V>(c: Codec<V>, mask: V -> V, infos: seq<Info<V>>) {
    forall i :: 0 <= i < |infos| ==> Faithful(c, mask, infos[i])
  }

  // ---- length ----

  function ObjectWidth<V>(c: Codec<V>): nat
    requires c.tagSize.Some?
  {
    c.valueSize + c.tagSize.value
  }

  /** How many of the objects from index i on carry their address. */
  function Addressed(isSequence: bool, n: nat, i: nat): nat
    requires i <= n
  {
    if isSequence then (if i == 0 && n > 0 then 1 else 0) else n - i
  }

  function Times(n: nat, w: nat): nat { if n == 0 then 0 else Times(n - 1, w) + w }

  lemma {:induction false} TimesIsProduct(n: nat, w: nat)
    ensures Times(n, w) == n * w
  {
    if n > 0 {
      TimesIsProduct(n - 1, w);
      assert (n - 1) * w + w == n * w;
    }
  }

  lemma ObjectLength<V>(p: Params, c: Codec<V>, isSequence: bool, infos: seq<Info<V>>, i: nat)
    requires p.Valid() && i < |infos| && Fits(c, infos[i])
    requires ObjectOctets(p, c, isSequence, i, infos[i]).Ok?
    ensures |ObjectOctets(p, c, isSequence, i, infos[i]).value|
            == ObjectWidth(c) + (if WritesAddr(isSequence, i) then p.infoObjAddrSize else 0)
  {
  }

  lemma {:induction false} ObjectsLength<V>(p: Params, c: Codec<V>, isSequence: bool, infos: seq<Info<V>>, i: nat)
    requires p.Valid() && c.tagSize.Some? && i <= |infos| && (forall j :: 0 <= j < |infos| ==> Fits(c, infos[j]))
    requires Objects(p, c, isSequence, infos, i).Ok?
    ensures |Objects(p, c, isSequence, infos, i).value|
            == Times(|infos| - i, ObjectWidth(c)) + Times(Addressed(isSequence, |infos|, i), p.infoObjAddrSize)
    decreases |infos| - i
  {
    if i < |infos| {
      var b, rest := ObjectOctets(p, c, isSequence, i, infos[i]), Objects(p, c, isSequence, infos, i + 1);
      ObjectsFrom(p, c, isSequence, infos, i);
      assert |Objects(p, c, isSequence, infos, i).value| == |b.value| + |rest.value|;
      ObjectsLength(p, c, isSequence, infos, i + 1);
      ObjectLength(p, c, isSequence, infos, i);
      OneMore(isSequence, |infos|, i, ObjectWidth(c), p.infoObjAddrSize);
    }
  }

  /** Built objects are the first and the others. */
  lemma ObjectsFrom<V>(p: Params, c: Codec<V>, isSequence: bool, infos: seq<Info<V>>, i: nat)
    requires i < |infos| && Objects(p, c, isSequence, infos, i).Ok?
    ensures ObjectOctets(p, c, isSequence, i, infos[i]).Ok? && Objects(p, c, isSequence, infos, i + 1).Ok?
    ensures Objects(p, c, isSequence, infos, i).value
            == ObjectOctets(p, c, isSequence, i, infos[i]).value + Objects(p, c, isSequence, infos, i + 1).value
  {
  }

  lemma OneMore(isSequence: bool, n: nat, i: nat, w: nat, addr: nat)
    requires i < n
    ensures Times(n - i, w) == w + Times(n - i - 1, w)
    ensures Times(Addressed(isSequence, n, i), addr)
            == (if WritesAddr(isSequence, i) then addr else 0) + Times(Addressed(isSequence, n, i + 1), addr)
  {
  }

  /**
   A built payload has exactly the length its type and qualifier imply, so it passes the length
   check of the codec and marshalling can only refuse the cause or the common address.
   */
  lemma BuiltMarshals<V>(p: Params, c: Codec<V>, mask: V -> V, t: byte, isSequence: bool, coa: CauseOfTransmission, ca: CommonAddr,
                         infos: seq<Info<V>>)
    requires Build(p, c, t, isSequence, coa, ca, infos).Ok? && AllFaithful(c, mask, infos)
    requires c.tagSize.Some? && InfoObjSize(t) == Some(ObjectWidth(c)) && 0 < t < 120
    requires coa.cause != 0 && ca != INVALID_COMMON_ADDR && (p.commonAddrSize == 1 ==> ca == GLOBAL_COMMON_ADDR || ca < 255)
    ensures var a := Build(p, c, t, isSequence, coa, ca, infos).value;
      && FixInfoObjSize(p, t, a.identifier.variable, a.infoObj) == Ok(a.infoObj)
      && Marshal(a).Ok?
  {
    var a := Build(p, c, t, isSequence, coa, ca, infos).value;
    forall j | 0 <= j < |infos| ensures Fits(c, infos[j]) {
      assert Faithful(c, mask, infos[j]);
    }
    ObjectsLength(p, c, isSequence, infos, 0);
    BuiltLength(p, c, t, isSequence, coa, ca, infos);
    BuiltParts(p, c, t, isSequence, coa, ca, infos);
    Started(p, t, isSequence, coa, ca, |infos|, ObjectWidth(c));
    FittingMarshals(a, ObjectWidth(c));
  }

  /** A payload of exactly the implied length is nothing to refuse. */
  lemma FittingMarshals(a: Asdu, w: nat)
    requires a.params.Valid() && InfoObjSize(a.identifier.typeId) == Some(w) && 0 < a.identifier.typeId < 120
    requires 0 < a.identifier.variable.number <= 127 && |a.infoObj| == FixedSize(a.params, a.identifier.variable, w)
    requires a.params.IdentifierSize() + |a.infoObj| <= ASDU_SIZE_MAX
    requires var ca := a.identifier.commonAddr;
      a.identifier.coa.cause != 0 && ca != INVALID_COMMON_ADDR && (a.params.commonAddrSize == 1 ==> ca == GLOBAL_COMMON_ADDR || ca < 255)
    ensures FixInfoObjSize(a.params, a.identifier.typeId, a.identifier.variable, a.infoObj) == Ok(a.infoObj)
    ensures Marshal(a).Ok?
  {
    var p, v := a.params, a.identifier.variable;
    Positive(p, v, w);
    FitsExactly(p, a.identifier.typeId, v, a.infoObj, w);
    FitsExactly(p.Strict(), a.identifier.typeId, v, a.infoObj, w);
  }

  lemma FitsExactly(p: Params, t: byte, v: VariableStruct, infoObj: seq<byte>, w: nat)
    requires InfoObjSize(t) == Some(w) && 0 < t < 120 && 0 < v.number <= 127 && |infoObj| == FixedSize(p, v, w) > 0
    ensures FixInfoObjSize(p, t, v, infoObj) == Ok(infoObj)
  {
    assert ExpectedSize(p, t, v, infoObj) == Ok(|infoObj|);
    assert infoObj[..|infoObj|] == infoObj;
  }

  lemma Distribute(n: nat, w: nat, addr: nat)
    ensures n * (addr + w) == n * w + n * addr == n * (w + addr)
  {
  }

  /** What a list that passed the first checks is known to satisfy. */
  lemma Started(p: Params, t: byte, isSequence: bool, coa: CauseOfTransmission, ca: CommonAddr, n: nat, w: nat)
    requires Start(p, t, isSequence, coa, ca, n).Ok? && InfoObjSize(t) == Some(w)
    ensures p.Valid() && 0 < n < 128
    ensures var addr: int := p.infoObjAddrSize;
      p.IdentifierSize() + (if isSequence then n * w + addr else n * (w + addr)) <= ASDU_SIZE_MAX
  {
  }

  lemma BuiltLength<V>(p: Params, c: Codec<V>, t: byte, isSequence: bool, coa: CauseOfTransmission, ca: CommonAddr, infos: seq<Info<V>>)
    requires Build(p, c, t, isSequence, coa, ca, infos).Ok? && c.tagSize.Some? && InfoObjSize(t) == Some(ObjectWidth(c))
    requires |Objects(p, c, isSequence, infos, 0).value|
             == Times(|infos|, ObjectWidth(c)) + Times(Addressed(isSequence, |infos|, 0), p.infoObjAddrSize)
    ensures var a := Build(p, c, t, isSequence, coa, ca, infos).value;
      && |a.infoObj| == FixedSize(p, a.identifier.variable, ObjectWidth(c))
      && p.IdentifierSize() + |a.infoObj| <= ASDU_SIZE_MAX
  {
    var n, w := |infos|, ObjectWidth(c);
    Started(p, t, isSequence, coa, ca, n, w);
    TimesIsProduct(n, w);
    TimesIsProduct(Addressed(isSequence, n, 0), p.infoObjAddrSize);
    Distribute(n, w, p.infoObjAddrSize);
  }

  lemma Positive(p: Params, v: VariableStruct, w: nat)
    requires p.Valid() && v.number > 0
    ensures FixedSize(p, v, w) > 0
  {
    var n: nat, addr: nat := v.number, p.infoObjAddrSize;
    TimesIsProduct(n, addr + w);
    TimesIsProduct(n, w);
    assert Times(n, addr + w) == Times(n - 1, addr + w) + (addr + w);
  }

  // ---- reading back ----

  lemma AddrRoundTrip(p: Params, ioa: Word, rest: seq<byte>)
    requires EncodeAddr(p, ioa).Ok?
    ensures ReadAddr(p, EncodeAddr(p, ioa).value + rest) == Ok(ioa) && ioa < 0x100_0000
    ensures (EncodeAddr(p, ioa).value + rest)[p.infoObjAddrSize..] == rest
  {
    var b := EncodeAddr(p, ioa).value;
    AddrLimits();
    LeRoundTrip(ioa, p.infoObjAddrSize);
    assert (b + rest)[..p.infoObjAddrSize] == b;
  }

  /** The address the getter gives the object at index i. */
  function Address<V>(isSequence: bool, infos: seq<Info<V>>, i: nat): Word
    requires i < |infos| <= 127 && infos[0].ioa < 0x100_0000
  {
    if isSequence then infos[0].ioa + i else infos[i].ioa
  }

  /** What the getter makes of the list from index i on. */
  function ReadBack<V>(mask: V -> V, isSequence: bool, infos: seq<Info<V>>, i: nat): seq<Info<V>>
    requires i <= |infos| <= 127 && (infos != [] ==> infos[0].ioa < 0x100_0000)
    decreases |infos| - i
  {
    if i == |infos| then []
    else [Info(Address(isSequence, infos, i), mask(infos[i].value), infos[i].tag)] + ReadBack(mask, isSequence, infos, i + 1)
  }

  /** The address written in front of an object is read back, or implied, and what follows it remains. */
  lemma AddressRead<V>(p: Params, isSequence: bool, infos: seq<Info<V>>, i: nat, previous: Word, body: seq<byte>)
    requires i < |infos| <= 127 && infos[0].ioa < 0x100_0000
    requires isSequence && i > 0 ==> previous == infos[0].ioa + i - 1
    requires WritesAddr(isSequence, i) ==> EncodeAddr(p, infos[i].ioa).Ok?
    ensures var b := (if WritesAddr(isSequence, i) then EncodeAddr(p, infos[i].ioa).value else []) + body;
      AddrAt(p, isSequence, i, previous, b) == Ok(Address(isSequence, infos, i)) && AfterAddr(p, isSequence, i, b) == body
  {
    if WritesAddr(isSequence, i) {
      AddrRoundTrip(p, infos[i].ioa, body);
    } else {
      assert [] + body == body;
    }
  }

  /** The value and the tag of an object are read back, and what follows them remains. */
  lemma BodyRead<V>(c: Codec<V>, mask: V -> V, v: Info<V>, ioa: Word, rest: seq<byte>)
    requires Faithful(c, mask, v)
    ensures ReadBody(c, ioa, c.encode(v.value) + v.tag + rest) == Ok((Info(ioa, mask(v.value), v.tag), rest))
  {
    var body := c.encode(v.value) + v.tag + rest;
    var size, end := c.valueSize, ObjectWidth(c);
    assert body[..size] == c.encode(v.value) && body[size..end] == v.tag && body[end..] == rest;
  }

  lemma ObjectRead<V>(p: Params, c: Codec<V>, mask: V -> V, isSequence: bool, infos: seq<Info<V>>, i: nat, previous: Word, rest: seq<byte>)
    requires i < |infos| <= 127 && Faithful(c, mask, infos[i]) && infos[0].ioa < 0x100_0000
    requires ObjectOctets(p, c, isSequence, i, infos[i]).Ok?
    requires isSequence && i > 0 ==> previous == infos[0].ioa + i - 1
    ensures ReadObject(p, c, isSequence, ObjectOctets(p, c, isSequence, i, infos[i]).value + rest, i, previous)
            == Ok((Info(Address(isSequence, infos, i), mask(infos[i].value), infos[i].tag), rest))
  {
    var v := infos[i];
    var addr := if WritesAddr(isSequence, i) then EncodeAddr(p, v.ioa).value else [];
    var body := c.encode(v.value) + v.tag + rest;
    assert ObjectOctets(p, c, isSequence, i, v).value + rest == addr + body;
    AddressRead(p, isSequence, infos, i, previous, body);
    BodyRead(c, mask, v, Address(isSequence, infos, i), rest);
  }

  lemma {:induction false} ObjectsRead<V>(p: Params, c: Codec<V>, mask: V -> V, isSequence: bool, infos: seq<Info<V>>, i: nat, previous: Word)
    requires c.Valid() && i <= |infos| <= 127 && AllFaithful(c, mask, infos) && (infos != [] ==> infos[0].ioa < 0x100_0000)
    requires Objects(p, c, isSequence, infos, i).Ok?
    requires isSequence && i > 0 ==> previous == infos[0].ioa + i - 1
    ensures ReadObjects(p, c, isSequence, Objects(p, c, isSequence, infos, i).value, |infos|, i, previous)
            == Ok(ReadBack(mask, isSequence, infos, i))
    decreases |infos| - i
  {
    if i < |infos| {
      var b, rest := ObjectOctets(p, c, isSequence, i, infos[i]).value, Objects(p, c, isSequence, infos, i + 1).value;
      assert Objects(p, c, isSequence, infos, i).value == b + rest;
      assert Faithful(c, mask, infos[i]);
      ObjectRead(p, c, mask, isSequence, infos, i, previous, rest);
      ObjectsRead(p, c, mask, isSequence, infos, i + 1, Address(isSequence, infos, i));
      ReadOn(p, c, isSequence, b + rest, |infos|, i, previous);
    }
  }

  /** Reading on: the first object, then the others. */
  lemma ReadOn<V>(p: Params, c: Codec<V>, isSequence: bool, b: seq<byte>, n: nat, i: nat, previous: Word)
    requires c.Valid() && i < n && ReadObject(p, c, isSequence, b, i, previous).Ok?
    ensures var (v, left) := ReadObject(p, c, isSequence, b, i, previous).value;
      var others := ReadObjects(p, c, isSequence, left, n, i + 1, v.ioa);
      others.Ok? ==> ReadObjects(p, c, isSequence, b, n, i, previous) == Ok([v] + others.value)
  {
  }

  lemma FirstAddress<V>(p: Params, c: Codec<V>, t: byte, isSequence: bool, coa: CauseOfTransmission, ca: CommonAddr, infos: seq<Info<V>>)
    requires Build(p, c, t, isSequence, coa, ca, infos).Ok?
    ensures 0 < |infos| <= 127 && infos[0].ioa < 0x100_0000
  {
    AddrRoundTrip(p, infos[0].ioa, []);
  }

  lemma BuiltParts<V>(p: Params, c: Codec<V>, t: byte, isSequence: bool, coa: CauseOfTransmission, ca: CommonAddr, infos: seq<Info<V>>)
    requires Build(p, c, t, isSequence, coa, ca, infos).Ok?
    ensures var a := Build(p, c, t, isSequence, coa, ca, infos).value;
      && Objects(p, c, isSequence, infos, 0) == Ok(a.infoObj) && a.params == p
      && |infos| < 128 && a.identifier == Identifier(t, VariableStruct(|infos|, isSequence), coa, 0, ca)
  {
  }

  /** The getter returns the list the builder accepted, up to the masks and the implied addresses. */
  lemma BuildThenGet<V>(p: Params, c: Codec<V>, mask: V -> V, t: byte, isSequence: bool, coa: CauseOfTransmission, ca: CommonAddr,
                        infos: seq<Info<V>>)
    requires Build(p, c, t, isSequence, coa, ca, infos).Ok? && c.Valid() && AllFaithful(c, mask, infos)
    ensures 0 < |infos| <= 127 && infos[0].ioa < 0x100_0000
    ensures Get(Build(p, c, t, isSequence, coa, ca, infos).value, c) == Ok(ReadBack(mask, isSequence, infos, 0))
  {
    FirstAddress(p, c, t, isSequence, coa, ca, infos);
    ObjectsRead(p, c, mask, isSequence, infos, 0, 0);
    BuiltParts(p, c, t, isSequence, coa, ca, infos);
  }

  /** Object by object: with SQ set, the i-th address is the first plus i, whatever the builder was given. */
  lemma {:induction false} ReadBackAt<V>(mask: V -> V, isSequence: bool, infos: seq<Info<V>>, i: nat, k: nat)
    requires i <= k < |infos| <= 127 && infos[0].ioa < 0x100_0000
    ensures |ReadBack(mask, isSequence, infos, i)| == |infos| - i
    ensures ReadBack(mask, isSequence, infos, i)[k - i]
            == Info(if isSequence then infos[0].ioa + k else infos[k].ioa, mask(infos[k].value), infos[k].tag)
    decreases |infos| - i
  {
    var first, others := Info(Address(isSequence, infos, i), mask(infos[i].value), infos[i].tag), ReadBack(mask, isSequence, infos, i + 1);
    assert ReadBack(mask, isSequence, infos, i) == [first] + others;
    if i < k {
      ReadBackAt(mask, isSequence, infos, i + 1, k);
      assert ([first] + others)[k - i] == others[k - i - 1];
    } else if i + 1 < |infos| {
      ReadBackAt(mask, isSequence, infos, i + 1, k + 1);
    }
  }

  // ---- the families ----

  /** The codec of a family's builder and getter for a type. */
  function CodecOf(fam: Family, t: byte): Codec<Value> {
    Codec(ValueSize(fam, t),
          match TaggingOf(fam, t) case Some(tagging) => Some(TagSize(tagging)) case None => None,
          v => EncodeValue(t, v),
          (b: seq<byte>) requires |b| == ValueSize(fam, t) => DecodeValue(fam, t, b))
  }

  function MaskOf(t: byte): Value -> Value { v => Masked(t, v) }

  /** The list belongs to the family, and its time tags have the width of the type. */
  predicate ListFor(fam: Family, t: byte, infos: seq<Info<Value>>) {
    && TaggingOf(fam, t).Some? && (fam.PackedScd? ==> t == M_PS_NA_1)
    && forall i :: 0 <= i < |infos| ==>
         Belongs(fam, infos[i].value) && |infos[i].tag| == TagSize(TaggingOf(fam, t).value)
  }

  lemma FamilyFaithful(fam: Family, t: byte, infos: seq<Info<Value>>)
    requires ListFor(fam, t, infos)
    ensures AllFaithful(CodecOf(fam, t), MaskOf(t), infos) && CodecOf(fam, t).Valid()
  {
    forall i | 0 <= i < |infos| ensures Faithful(CodecOf(fam, t), MaskOf(t), infos[i]) {
      ValueRoundTrip(fam, t, infos[i].value);
    }
  }

  lemma FamilySizes(fam: Family, t: byte)
    requires TaggingOf(fam, t).Some? && (fam.PackedScd? ==> t == M_PS_NA_1)
    ensures 0 < t < 120 && CodecOf(fam, t).tagSize.Some? && InfoObjSize(t) == Some(ObjectWidth(CodecOf(fam, t)))
  {
    SizesAgree(fam, t);
  }

  /**
   For every family of process information, any valid parameters and any list the builder accepts:
   the getter returns that list up to the documented masks, its addresses running on from the first
   when SQ is set, and marshalling never fails on length.
   */
  lemma FamilyRoundTrip(p: Params, fam: Family, t: byte, isSequence: bool, coa: CauseOfTransmission, ca: CommonAddr, infos: seq<Info<Value>>)
    requires ListFor(fam, t, infos) && Build(p, CodecOf(fam, t), t, isSequence, coa, ca, infos).Ok?
    requires coa.cause != 0 && ca != INVALID_COMMON_ADDR && (p.commonAddrSize == 1 ==> ca == GLOBAL_COMMON_ADDR || ca < 255)
    ensures 0 < |infos| <= 127 && infos[0].ioa < 0x100_0000
    ensures var a := Build(p, CodecOf(fam, t), t, isSequence, coa, ca, infos).value;
      && CodecOf(fam, t).Valid() && Get(a, CodecOf(fam, t)) == Ok(ReadBack(MaskOf(t), isSequence, infos, 0))
      && Marshal(a).Ok?
  {
    var c, mask := CodecOf(fam, t), MaskOf(t);
    FamilyFaithful(fam, t, infos);
    FamilySizes(fam, t);
    BuildThenGet(p, c, mask, t, isSequence, coa, ca, infos);
    BuiltMarshals(p, c, mask, t, isSequence, coa, ca, infos);
  }

  /** A single object the builder accepts is what the getter of single objects returns, and it marshals. */
  lemma OneObjectRoundTrip(p: Params, fam: Family, t: byte, coa: CauseOfTransmission, ca: CommonAddr, v: Info<Value>)
    requires ListFor(fam, t, [v]) && BuildOne(p, CodecOf(fam, t), t, coa, ca, v).Ok?
    requires ca != INVALID_COMMON_ADDR && (p.commonAddrSize == 1 ==> ca == GLOBAL_COMMON_ADDR || ca < 255)
    ensures var a := BuildOne(p, CodecOf(fam, t), t, coa, ca, v).value;
      && CodecOf(fam, t).Valid() && GetOne(a, CodecOf(fam, t)) == Ok(v.(value := Masked(t, v.value)))
      && Marshal(a).Ok?
  {
    var c := CodecOf(fam, t);
    var b := ObjectOctets(p, c, false, 0, v).value;
    FamilyRoundTrip(p, fam, t, false, coa, ca, [v]);
    FamilyFaithful(fam, t, [v]);
    assert Objects(p, c, false, [v], 1) == Ok([]);
    assert Build(p, c, t, false, coa, ca, [v]).value.infoObj == b + [];
    assert Faithful(c, MaskOf(t), [v][0]);
    ObjectRead(p, c, MaskOf(t), false, [v], 0, 0, []);
  }

  /** Through the octets: what one end builds and marshals, the other unmarshals and reads. */
  lemma EndToEnd(p: Params, fam: Family, t: byte, isSequence: bool, coa: CauseOfTransmission, ca: CommonAddr, infos: seq<Info<Value>>)
    requires ListFor(fam, t, infos) && Build(p, CodecOf(fam, t), t, isSequence, coa, ca, infos).Ok?
    requires 0 < coa.cause < 64 && ca != INVALID_COMMON_ADDR && (p.commonAddrSize == 1 ==> ca == GLOBAL_COMMON_ADDR || ca < 255)
    ensures 0 < |infos| <= 127 && infos[0].ioa < 0x100_0000
    ensures var a := Build(p, CodecOf(fam, t), t, isSequence, coa, ca, infos).value;
      && CodecOf(fam, t).Valid() && Marshal(a).Ok? && Unmarshal(p, Marshal(a).value).Ok?
      && Get(Unmarshal(p, Marshal(a).value).value, CodecOf(fam, t)) == Ok(ReadBack(MaskOf(t), isSequence, infos, 0))
  {
    var a := Build(p, CodecOf(fam, t), t, isSequence, coa, ca, infos).value;
    FamilyRoundTrip(p, fam, t, isSequence, coa, ca, infos);
    SizesAgree(fam, t);
    UnmarshalMarshal(a);
  }

  // ---- the segment of a file ----

  datatype Segment = Segment(ioa: Word, nof: Half, nos: byte, segment: seq<byte>)

  const CAUSE_FILE_TRANSFER: byte := 13

  /** The largest segment that fits one ASDU; the length octet would allow 255. */
  function MaxSegmentSize(p: Params): nat {
    var addr: int := p.infoObjAddrSize;
    var overhead := p.IdentifierSize() + addr + 4;
    Min(if overhead > ASDU_SIZE_MAX then 0 else ASDU_SIZE_MAX - overhead, 255)
  }

  function FileSegment(p: Params, coa: CauseOfTransmission, ca: CommonAddr, s: Segment): Result<Asdu> {
    if coa.cause != CAUSE_FILE_TRANSFER then Err(CmdCause)
    else if !p.Valid() then Err(ParamInvalid)
    else if |s.segment| > MaxSegmentSize(p) then Err(LengthOutOfRange)
    else
      match EncodeAddr(p, s.ioa)
      case Err(e) => Err(e)
      case Ok(addr) =>
        Ok(Asdu(p, Identifier(F_SG_NA_1, VariableStruct(1, false), coa, 0, ca),
                  addr + Le(s.nof, 2) + [s.nos] + [|s.segment|] + s.segment))
  }

  function GetFileSegment(a: Asdu): Result<Segment> {
    match ReadAddr(a.params, a.infoObj)
    case Err(e) => Err(e)
    case Ok(ioa) =>
      var b := a.infoObj[a.params.infoObjAddrSize..];
      if |b| < 4 then Err(UnexpectedEof)
      else
        var los: int := b[3];
        if |b| < 4 + los then Err(UnexpectedEof)
        else Ok(Segment(ioa, Half2(b[..2]), b[2], b[4..4 + los]))
  }

  /** The segment's own octets, behind its address. */
  function SegmentBody(s: Segment): seq<byte>
    requires |s.segment| <= 255
  {
    Le(s.nof, 2) + [s.nos] + [|s.segment|] + s.segment
  }

  lemma SegmentOctets(p: Params, coa: CauseOfTransmission, ca: CommonAddr, s: Segment)
    requires FileSegment(p, coa, ca, s).Ok?
    ensures |s.segment| <= 255 && EncodeAddr(p, s.ioa).Ok?
    ensures var a, b := FileSegment(p, coa, ca, s).value, SegmentBody(s);
      && a.infoObj == EncodeAddr(p, s.ioa).value + b
      && ReadAddr(p, a.infoObj) == Ok(s.ioa) && a.infoObj[p.infoObjAddrSize..] == b
      && p.IdentifierSize() + |a.infoObj| <= ASDU_SIZE_MAX
  {
    AddrRoundTrip(p, s.ioa, SegmentBody(s));
    var a := FileSegment(p, coa, ca, s).value;
    assert a.infoObj == EncodeAddr(p, s.ioa).value + SegmentBody(s);
  }

  lemma BodyRoundTrip(s: Segment)
    requires |s.segment| <= 255
    ensures var b := SegmentBody(s);
      && |b| == 4 + |s.segment| && Half2(b[..2]) == s.nof && b[2] == s.nos && b[3] == |s.segment|
      && b[4..4 + |s.segment|] == s.segment
  {
    Le2(s.nof);
    assert SegmentBody(s)[..2] == Le(s.nof, 2);
  }

  /** A segment the builder accepts is read back, and its ASDU marshals and unmarshals to itself. */
  lemma SegmentRoundTrip(p: Params, coa: CauseOfTransmission, ca: CommonAddr, s: Segment)
    requires FileSegment(p, coa, ca, s).Ok?
    requires ca != INVALID_COMMON_ADDR && (p.commonAddrSize == 1 ==> ca == GLOBAL_COMMON_ADDR || ca < 255)
    ensures var a := FileSegment(p, coa, ca, s).value;
      && GetFileSegment(a) == Ok(s)
      && Marshal(a).Ok? && Unmarshal(p, Marshal(a).value) == Ok(a)
  {
    var a := FileSegment(p, coa, ca, s).value;
    SegmentOctets(p, coa, ca, s);
    BodyRoundTrip(s);
    SegmentMarshals(p, coa, ca, s);
    UnmarshalMarshal(a);
  }

  lemma SegmentMarshals(p: Params, coa: CauseOfTransmission, ca: CommonAddr, s: Segment)
    requires FileSegment(p, coa, ca, s).Ok?
    requires ca != INVALID_COMMON_ADDR && (p.commonAddrSize == 1 ==> ca == GLOBAL_COMMON_ADDR || ca < 255)
    ensures Marshal(FileSegment(p, coa, ca, s).value).Ok?
  {
    var a := FileSegment(p, coa, ca, s).value;
    SegmentOctets(p, coa, ca, s);
    BodyRoundTrip(s);
    assert a.infoObj[p.infoObjAddrSize + 3] == a.infoObj[p.infoObjAddrSize..][3];
  }

  /** The limit is tight: one octet more and the ASDU would not fit. */
  lemma SegmentLimit(p: Params, n: nat)
    requires p.Valid()
    ensures n <= MaxSegmentSize(p) <==> p.IdentifierSize() + p.infoObjAddrSize + 4 + n <= ASDU_SIZE_MAX
  {
  }
}
