/**
 The control field of IEC 60870-5-104 (src/cs104/apci.rs): the three APDU formats, their
 parser, the resynchronising reader, and the 15 bit sequence-number arithmetic.

 Shifts and masks are written as arithmetic on octets: `x << 1` is doubling, `x >> 1` is
 halving, and an OR of disjoint bit fields is a sum.
 */
module Apci {
  import opened Octets
  import opened Streams

  const START_FRAME: byte := 0x68
  const CTL_FIELD_SIZE: nat := 4
  const ASDU_SIZE_MAX: nat := 249
  const APDU_SIZE_MAX: nat := 255
  const APDU_FIELD_SIZE_MAX: nat := CTL_FIELD_SIZE + ASDU_SIZE_MAX
  const SEQ_MODULUS: nat := 32768

  type SeqNo = n: int | 0 <= n < 32768

  datatype UFunction = StartDtActive | StartDtConfirm | StopDtActive | StopDtConfirm | TestFrActive | TestFrConfirm

  /** A decoded APDU: the control field and, for the I format, the ASDU that follows it. */
  datatype Apdu =
    | I(sendSn: SeqNo, recvSn: SeqNo, asdu: seq<byte>)
    | S(recvSn: SeqNo)
    | U(fun: UFunction)

  function Bits(f: UFunction): byte {
    match f
    case StartDtActive => 0x04
    case StartDtConfirm => 0x08
    case StopDtActive => 0x10
    case StopDtConfirm => 0x20
    case TestFrActive => 0x40
    case TestFrConfirm => 0x80
  }

  function FromBits(b: byte): Option<UFunction> {
    if b == 0x04 then Some(StartDtActive)
    else if b == 0x08 then Some(StartDtConfirm)
    else if b == 0x10 then Some(StopDtActive)
    else if b == 0x20 then Some(StopDtConfirm)
    else if b == 0x40 then Some(TestFrActive)
    else if b == 0x80 then Some(TestFrConfirm)
    else None
  }

  function Low(n: SeqNo): byte { (n * 2) % 256 }

  function High(n: SeqNo): byte { n / 128 }

  /** The 15 bit number of two octets; bit 0 of the low one is the format bit and is shifted out. */
  function Number(low: byte, high: byte): SeqNo { low / 2 + 128 * high }

  /** An APDU the constructors build: an I format carries 1 to 249 octets. */
  predicate WellFormed(a: Apdu) {
    a.I? ==> 1 <= |a.asdu| <= ASDU_SIZE_MAX
  }

  /** The octets of `new_i_frame`, `new_s_frame` and `new_u_frame`. */
  function Encode(a: Apdu): seq<byte>
    requires a.I? ==> |a.asdu| <= ASDU_SIZE_MAX
  {
    match a
    case I(s, r, asdu) =>
      [START_FRAME, |asdu| + CTL_FIELD_SIZE, Low(s), High(s), Low(r), High(r)] + asdu
    case S(r) =>
      [START_FRAME, 4, 1, 0, Low(r), High(r)]
    case U(f) =>
      [START_FRAME, 4, Bits(f) + 3, 0, 0, 0]
  }

  method NewIFrame(sendSn: SeqNo, recvSn: SeqNo, asdu: seq<byte>) returns (r: Result<seq<byte>>)
    ensures r.Ok? <==> |asdu| <= ASDU_SIZE_MAX
    ensures r.Ok? ==> r.value == Encode(I(sendSn, recvSn, asdu))
  {
    if |asdu| > ASDU_SIZE_MAX {
      return Err(LengthOutOfRange);
    }
    var b: seq<byte> := [];
    b := b + [START_FRAME];
    b := b + [|asdu| + CTL_FIELD_SIZE];
    b := b + [Low(sendSn)];
    b := b + [High(sendSn)];
    b := b + [Low(recvSn)];
    b := b + [High(recvSn)];
    b := b + asdu;
    return Ok(b);
  }

  function Parse(apdu: seq<byte>): Result<Apdu> {
    if |apdu| < 6 then Err(ApciInvalid)
    else if apdu[1] != |apdu| - 2 then Err(ApciInvalid)
    else ParseControl(apdu[1], apdu[2], apdu[3], apdu[4], apdu[5], apdu[6..])
  }

  function ParseControl(fieldLen: byte, c1: byte, c2: byte, c3: byte, c4: byte, asdu: seq<byte>): Result<Apdu> {
    if c1 % 2 == 0 then
      if fieldLen <= CTL_FIELD_SIZE then Err(ApciInvalid)
      else if c3 % 2 != 0 then Err(ApciInvalid)
      else Ok(I(Number(c1, c2), Number(c3, c4), asdu))
    else if c1 % 4 == 1 then
      if fieldLen != CTL_FIELD_SIZE then Err(ApciInvalid)
      else if c1 != 1 || c2 != 0 || c3 % 2 != 0 then Err(ApciInvalid)
      else Ok(S(Number(c3, c4)))
    else
      if fieldLen != CTL_FIELD_SIZE then Err(ApciInvalid)
      else if c2 != 0 || c3 != 0 || c4 != 0 then Err(ApciInvalid)
      else
        match FromBits(c1 - c1 % 4)
        case Some(f) => Ok(U(f))
        case None => Err(ApciInvalid)
  }

  lemma NumberInverse(n: SeqNo)
    ensures Number(Low(n), High(n)) == n
    ensures Low(n) % 2 == 0
  {
    var q, r := n / 128, n % 128;
    assert n * 2 == 256 * q + 2 * r;
    assert Low(n) == 2 * r;
  }

  lemma OctetInverse(low: byte, high: byte)
    ensures High(Number(low, high)) == high
    ensures low % 2 == 0 ==> Low(Number(low, high)) == low
  {
    var n := Number(low, high);
    assert n / 128 == high;
  }

  /** Whatever the constructors build, the parser returns. */
  lemma ParseEncode(a: Apdu)
    requires WellFormed(a)
    ensures Parse(Encode(a)) == Ok(a)
  {
    match a
    case I(s, r, asdu) => ParseEncodeI(s, r, asdu);
    case S(r) => ParseEncodeS(r);
    case U(f) => ParseEncodeU(f);
  }

  lemma ParseEncodeS(r: SeqNo)
    ensures Parse(Encode(S(r))) == Ok(S(r))
  {
    NumberInverse(r);
    var e := Encode(S(r));
    assert ParseControl(4, 1, 0, Low(r), High(r), []) == Ok(S(r));
    assert e[6..] == [];
  }

  lemma ParseEncodeU(f: UFunction)
    ensures Parse(Encode(U(f))) == Ok(U(f))
  {
    FunctionOctet(f);
    assert Encode(U(f)) == [START_FRAME, 4, Bits(f) + 3, 0, 0, 0];
    assert Encode(U(f))[6..] == [];
  }

  /** A control octet of the U format names its function. */
  lemma FunctionOctet(f: UFunction)
    ensures (Bits(f) + 3) % 2 == 1 && (Bits(f) + 3) % 4 == 3 && FromBits(Bits(f)) == Some(f)
  {
    match f
    case StartDtActive =>
    case StartDtConfirm =>
    case StopDtActive =>
    case StopDtConfirm =>
    case TestFrActive =>
    case TestFrConfirm =>
  }

  lemma ParseEncodeI(s: SeqNo, r: SeqNo, asdu: seq<byte>)
    requires 1 <= |asdu| <= ASDU_SIZE_MAX
    ensures Parse(Encode(I(s, r, asdu))) == Ok(I(s, r, asdu))
  {
    NumberInverse(s);
    NumberInverse(r);
    var e := Encode(I(s, r, asdu));
    assert e[6..] == asdu;
    assert e[1] == |asdu| + 4 == |e| - 2;
  }

  /** An accepted control field is the one the constructors write. */
  lemma EncodeParseControl(fieldLen: byte, c1: byte, c2: byte, c3: byte, c4: byte, asdu: seq<byte>)
    requires fieldLen == |asdu| + CTL_FIELD_SIZE <= APDU_FIELD_SIZE_MAX
    requires ParseControl(fieldLen, c1, c2, c3, c4, asdu).Ok?
    ensures WellFormed(ParseControl(fieldLen, c1, c2, c3, c4, asdu).value)
    ensures Encode(ParseControl(fieldLen, c1, c2, c3, c4, asdu).value)
         == [START_FRAME, fieldLen, c1, c2, c3, c4] + asdu
  {
    if c1 % 2 == 0 {
      OctetInverse(c1, c2);
      OctetInverse(c3, c4);
    } else if c1 % 4 == 1 {
      OctetInverse(c3, c4);
      assert asdu == [];
    } else {
      assert asdu == [];
    }
  }

  /** Whatever the parser accepts in a complete APDU is exactly what the constructors build for it. */
  lemma EncodeParse(apdu: seq<byte>)
    requires |apdu| > 0 && apdu[0] == START_FRAME && |apdu| <= APDU_SIZE_MAX
    requires Parse(apdu).Ok?
    ensures WellFormed(Parse(apdu).value)
    ensures Encode(Parse(apdu).value) == apdu
  {
    EncodeParseControl(apdu[1], apdu[2], apdu[3], apdu[4], apdu[5], apdu[6..]);
    assert apdu == [START_FRAME, apdu[1], apdu[2], apdu[3], apdu[4], apdu[5]] + apdu[6..];
  }

  // ---- the stream reader ----

  /** The first APDU of a stream and what follows it; None when the stream ends first. */
  function NextApdu(s: seq<byte>): (r: Option<(seq<byte>, seq<byte>)>)
    ensures r.Some? ==> 6 <= |r.value.0| <= APDU_SIZE_MAX && |r.value.1| + |r.value.0| <= |s|
  {
    if s == [] then None
    else if s[0] != START_FRAME then NextApdu(s[1..])
    else if |s| < 2 then None
    else if !(CTL_FIELD_SIZE <= s[1] <= APDU_FIELD_SIZE_MAX) then NextApdu(s[2..])
    else if |s| < s[1] + 2 then None
    else Some((s[..s[1] + 2], s[s[1] + 2..]))
  }

  /** Resynchronises: reads octets into buf[0] until one is a start character. */
  method SkipToStart(r: Stream, buf: array<byte>) returns (found: bool)
    requires buf.Length == APDU_SIZE_MAX
    modifies r, buf
    ensures !found ==> NextApdu(old(r.rest)).None?
    ensures found ==> buf[0] == START_FRAME && |r.rest| < |old(r.rest)|
    ensures found ==> NextApdu([START_FRAME] + r.rest) == NextApdu(old(r.rest))
  {
    while true
      invariant |r.rest| <= |old(r.rest)|
      invariant NextApdu(r.rest) == NextApdu(old(r.rest))
      decreases |r.rest|
    {
      ghost var before := r.rest;
      found := r.ReadExact(buf, 0, 1);
      if !found { return; }
      assert buf[0] == buf[0..1][0];
      assert [buf[0]] + r.rest == before;
      if buf[0] == START_FRAME {
        return;
      }
    }
  }

  /** Reads one complete APDU into `buf`, skipping everything that cannot start one. */
  method ReadApdu(r: Stream, buf: array<byte>) returns (total: Result<nat>)
    requires buf.Length == APDU_SIZE_MAX
    modifies r, buf
    ensures total.Ok? <==> NextApdu(old(r.rest)).Some?
    ensures total.Ok? ==> 6 <= total.value <= APDU_SIZE_MAX
    ensures total.Ok? ==> NextApdu(old(r.rest)) == Some((buf[..total.value], r.rest))
  {
    while true
      invariant NextApdu(r.rest) == NextApdu(old(r.rest))
      decreases |r.rest|
    {
      var more := SkipToStart(r, buf);
      if !more { return Err(StreamEnded); }
      ghost var s := [START_FRAME] + r.rest;
      more := r.ReadExact(buf, 1, 2);
      if !more { return Err(StreamEnded); }
      assert s[2..] == r.rest;
      var fieldLen := buf[1];
      assert fieldLen == buf[1..2][0] == s[1];
      if !(CTL_FIELD_SIZE <= fieldLen <= APDU_FIELD_SIZE_MAX) {
        continue;
      }
      assert buf[0] == START_FRAME by { assert buf[..1][0] == START_FRAME; }
      ghost var head := buf[..2];
      more := r.ReadExact(buf, 2, fieldLen + 2);
      if !more { return Err(StreamEnded); }
      assert buf[..fieldLen + 2] == head + buf[2..fieldLen + 2];
      assert s[..fieldLen + 2] == buf[..fieldLen + 2];
      return Ok(fieldLen + 2);
    }
  }

  /** Every APDU a reader loop gets out of a stream, in order. */
  function ReadAll(s: seq<byte>): seq<seq<byte>>
    decreases |s|
  {
    match NextApdu(s)
    case None => []
    case Some((apdu, rest)) => [apdu] + ReadAll(rest)
  }

  predicate IsNoise(s: seq<byte>) {
    START_FRAME !in s
  }

  /** A built APDU with the octets of line noise that arrive before it. */
  datatype Arrival = Arrival(noise: seq<byte>, apdu: Apdu)

  predicate CleanArrivals(items: seq<Arrival>) {
    forall i :: 0 <= i < |items| ==> IsNoise(items[i].noise) && WellFormed(items[i].apdu)
  }

  function Wire(items: seq<Arrival>): seq<byte>
    requires CleanArrivals(items)
  {
    if items == [] then [] else items[0].noise + (Encode(items[0].apdu) + Wire(items[1..]))
  }

  lemma {:induction false} NoiseIsSkipped(noise: seq<byte>, s: seq<byte>)
    requires IsNoise(noise)
    ensures NextApdu(noise + s) == NextApdu(s)
  {
    if noise == [] {
      assert noise + s == s;
    } else {
      assert (noise + s)[1..] == noise[1..] + s;
      NoiseIsSkipped(noise[1..], s);
    }
  }

  lemma FirstApdu(a: Apdu, s: seq<byte>)
    requires WellFormed(a)
    ensures NextApdu(Encode(a) + s) == Some((Encode(a), s))
  {
    var e := Encode(a);
    assert (e + s)[..|e|] == e && (e + s)[|e|..] == s;
  }

  /**
   Reading a stream of built APDUs, with any noise free of start characters between them and
   after the last, returns exactly those APDUs, and parsing each returns what was built.
   */
  lemma {:induction false} StreamRoundTrip(items: seq<Arrival>, tail: seq<byte>)
    requires CleanArrivals(items) && IsNoise(tail)
    ensures |ReadAll(Wire(items) + tail)| == |items|
    ensures forall i :: 0 <= i < |items| ==> Parse(ReadAll(Wire(items) + tail)[i]) == Ok(items[i].apdu)
  {
    if items == [] {
      NoiseIsSkipped(tail, []);
      assert Wire(items) + tail == tail == tail + [];
    } else {
      var rest := Wire(items[1..]) + tail;
      assert Wire(items) + tail == items[0].noise + (Encode(items[0].apdu) + rest);
      FirstRead(items[0], rest);
      ParseEncode(items[0].apdu);
      StreamRoundTrip(items[1..], tail);
      var all := ReadAll(Wire(items) + tail);
      assert all == [Encode(items[0].apdu)] + ReadAll(rest);
      forall i | 0 <= i < |items| ensures Parse(all[i]) == Ok(items[i].apdu) {
        if i > 0 { assert items[1..][i - 1] == items[i] && all[i] == ReadAll(rest)[i - 1]; }
      }
    }
  }

  lemma FirstRead(item: Arrival, rest: seq<byte>)
    requires IsNoise(item.noise) && WellFormed(item.apdu)
    ensures ReadAll(item.noise + (Encode(item.apdu) + rest)) == [Encode(item.apdu)] + ReadAll(rest)
  {
    NoiseIsSkipped(item.noise, Encode(item.apdu) + rest);
    FirstApdu(item.apdu, rest);
  }

  // ---- sequence numbers ----

  /** Frames between an acknowledge number and a send number, across the 15 bit wrap-around. */
  function SeqNoCount(nextAckNo: SeqNo, nextSeqNo: SeqNo): nat {
    (if nextAckNo > nextSeqNo then nextSeqNo + 32768 else nextSeqNo) - nextAckNo
  }

  function Wrap(n: nat): SeqNo { n % SEQ_MODULUS }

  /** In unbounded counters the count is the distance, as long as it stays below the modulus. */
  lemma SeqNoCountIsDistance(a: nat, b: nat)
    requires a <= b < a + SEQ_MODULUS
    ensures SeqNoCount(Wrap(a), Wrap(b)) == b - a
  {
    WrapShift(a, b - a);
  }

  lemma WrapShift(a: nat, n: nat)
    requires n < SEQ_MODULUS
    ensures Wrap(a + n) == (if Wrap(a) + n < SEQ_MODULUS then Wrap(a) + n else Wrap(a) + n - SEQ_MODULUS)
  {
    assert a == SEQ_MODULUS * (a / SEQ_MODULUS) + Wrap(a);
  }
}
