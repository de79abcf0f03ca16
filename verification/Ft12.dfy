/**
 The FT1.2 frame format of IEC 60870-5-1 (src/cs101/frame.rs): control field, marshalling with its
 arithmetic check octet, and the reader both endpoints resynchronise with.

 The control bits are disjoint, so ORs of them are written as sums and tests as digits.
 */
module Ft12 {
  import opened Octets
  import opened Streams

  const SINGLE_CHAR_ACK: byte := 0xE5
  const START_FIXED: byte := 0x10
  const START_VARIABLE: byte := 0x68
  const END_CHAR: byte := 0x16
  const MAX_LENGTH_FIELD: nat := 255

  /** Link address widths that marshal and read accept; anything wider is an error. */
  const MAX_ADDR_SIZE: nat := 2

  type Nibble = n: int | 0 <= n < 16
  type LinkAddr = a: int | 0 <= a < 65536

  // Function codes of the primary station.
  const RESET_LINK: Nibble := 0
  const RESET_USER: Nibble := 1
  const TEST_LINK: Nibble := 2
  const USER_DATA_CONF: Nibble := 3
  const USER_DATA_NO_CONF: Nibble := 4
  const RESET_FCB: Nibble := 7      // IEC 60870-5-103
  const REQ_ACCESS: Nibble := 8
  const REQ_STATUS: Nibble := 9
  const REQ_DATA1: Nibble := 10
  const REQ_DATA2: Nibble := 11

  // Function codes of the secondary station.
  const CONF_ACK: Nibble := 0
  const RESP_USER_DATA: Nibble := 8
  const USER_DATA_NO_REP: Nibble := 9
  const RESP_STATUS: Nibble := 11
  const RESP_LINK_NF: Nibble := 14
  const RESP_LINK_NI: Nibble := 15

  datatype ControlField = ControlField(dir: bool, prm: bool, fcb: bool, fcv: bool, acd: bool, dfc: bool, fun: Nibble)

  datatype Frame =
    | SingleCharAck
    | Fixed(control: ControlField, linkAddr: LinkAddr)
    | Variable(control: ControlField, linkAddr: LinkAddr, asdu: seq<byte>)

  /** The FCV a function code must carry, None for codes the standard does not define. */
  function FcvRequired(fun: Nibble): Option<bool> {
    if fun in {RESET_LINK, RESET_USER, USER_DATA_NO_CONF, REQ_ACCESS, REQ_STATUS, RESET_FCB} then Some(false)
    else if fun in {TEST_LINK, USER_DATA_CONF, REQ_DATA1, REQ_DATA2} then Some(true)
    else None
  }

  function PrimaryField(fun: Nibble, fcv: bool, fcb: bool, dir: bool): ControlField {
    ControlField(dir, true, fcv && fcb, fcv, false, false, fun)
  }

  function SecondaryField(fun: Nibble, acd: bool, dir: bool): ControlField {
    ControlField(dir, false, false, false, acd, false, fun)
  }

  function Bit(b: bool, weight: nat): nat { if b then weight else 0 }

  function Value(c: ControlField): byte {
    Bit(c.dir, 0x80)
    + (if c.prm then 0x40 + Bit(c.fcb, 0x20) + Bit(c.fcv, 0x10) else Bit(c.acd, 0x20) + Bit(c.dfc, 0x10))
    + c.fun
  }

  function ParseControl(b: byte): ControlField {
    var prm := b / 64 % 2 == 1;
    ControlField(b / 128 == 1, prm, prm && b / 32 % 2 == 1, prm && b / 16 % 2 == 1,
                 !prm && b / 32 % 2 == 1, !prm && b / 16 % 2 == 1, b % 16)
  }

  /** Only the pair of bits its direction gives a meaning to is used. */
  predicate Canonical(c: ControlField) {
    if c.prm then !c.acd && !c.dfc else !c.fcb && !c.fcv
  }

  lemma ControlRoundTrip(c: ControlField)
    requires Canonical(c)
    ensures ParseControl(Value(c)) == c
  {
    var q := Bit(c.dir, 8) + (if c.prm then 4 + Bit(c.fcb, 2) + Bit(c.fcv, 1) else Bit(c.acd, 2) + Bit(c.dfc, 1));
    var b: int := Value(c);
    assert b == 16 * q + c.fun;
    assert b / 16 == q && b / 32 == q / 2 && b / 64 == q / 4 && b / 128 == q / 8;
  }

  lemma ControlOctetRoundTrip(b: byte)
    ensures Canonical(ParseControl(b)) && Value(ParseControl(b)) == b
  {
    var q := b / 16;
    assert b == 16 * q + b % 16;
    assert b / 32 == q / 2 && b / 64 == q / 4 && b / 128 == q / 8;
    assert q in {0, 1, 2, 3, 4, 5, 6, 7, 8, 9, 10, 11, 12, 13, 14, 15};
  }

  function EncodeAddr(a: LinkAddr, size: nat): seq<byte> {
    if size == 1 then [a % 256] else if size == 2 then [a % 256, a / 256] else []
  }

  function DecodeAddr(b: seq<byte>): LinkAddr {
    if |b| == 1 then b[0]
    else if |b| == 2 then
      var low: int, high: int := b[0], b[1];
      low + 256 * high
    else 0
  }

  predicate AddrFits(a: LinkAddr, size: nat) {
    if size == 0 then a == 0 else size == 1 ==> a < 256
  }

  function Sum(s: seq<byte>): nat {
    if s == [] then 0 else s[0] + Sum(s[1..])
  }

  /** The check octet over control, address and ASDU. */
  function CheckOctet(control: byte, addr: seq<byte>, asdu: seq<byte>): byte {
    (control + Sum(addr + asdu)) % 256
  }

  /** The accumulating loop of `checksum`. */
  method Checksum(control: byte, addr: seq<byte>, asdu: seq<byte>) returns (sum: byte)
    ensures sum == CheckOctet(control, addr, asdu)
  {
    sum := control;
    var octets := addr + asdu;
    var i := 0;
    while i < |octets|
      invariant 0 <= i <= |octets|
      invariant sum == (control + Sum(octets[..i])) % 256
    {
      SumAppend(octets[..i], octets[i]);
      assert octets[..i] + [octets[i]] == octets[..i + 1];
      sum := (sum + octets[i]) % 256;
      i := i + 1;
    }
    assert octets[..i] == octets;
  }

  lemma {:induction false} SumAppend(s: seq<byte>, b: byte)
    ensures Sum(s + [b]) == Sum(s) + b
  {
    if s == [] {
      assert s + [b] == [b];
    } else {
      assert (s + [b])[1..] == s[1..] + [b];
      SumAppend(s[1..], b);
    }
  }

  lemma {:induction false} SumUpdate(s: seq<byte>, i: nat, b: byte)
    requires i < |s|
    ensures Sum(s[i := b]) == Sum(s) - s[i] + b
  {
    if i == 0 {
      assert s[i := b][1..] == s[1..];
    } else {
      assert s[i := b][1..] == s[1..][i - 1 := b];
      SumUpdate(s[1..], i - 1, b);
    }
  }

  function Marshal(f: Frame, size: nat): Result<seq<byte>> {
    if size > MAX_ADDR_SIZE then Err(FrameInvalid)
    else
      match f
      case SingleCharAck => Ok([SINGLE_CHAR_ACK])
      case Fixed(c, a) => Ok(FixedOctets(Value(c), EncodeAddr(a, size)))
      case Variable(c, a, asdu) =>
        if 1 + |EncodeAddr(a, size)| + |asdu| > MAX_LENGTH_FIELD then Err(FrameInvalid)
        else Ok(VariableOctets(Value(c), EncodeAddr(a, size), asdu))
  }

  function FixedOctets(control: byte, addr: seq<byte>): seq<byte> {
    [START_FIXED, control] + addr + [CheckOctet(control, addr, []), END_CHAR]
  }

  function VariableOctets(control: byte, addr: seq<byte>, asdu: seq<byte>): seq<byte>
    requires 1 + |addr| + |asdu| <= MAX_LENGTH_FIELD
  {
    var l: byte := 1 + |addr| + |asdu|;
    [START_VARIABLE, l, l, START_VARIABLE, control] + addr + asdu + [CheckOctet(control, addr, asdu), END_CHAR]
  }

  method MarshalFrame(f: Frame, size: nat) returns (r: Result<seq<byte>>)
    ensures r == Marshal(f, size)
  {
    if size > MAX_ADDR_SIZE {
      return Err(FrameInvalid);
    }
    match f {
      case SingleCharAck =>
        return Ok([SINGLE_CHAR_ACK]);
      case Fixed(control, linkAddr) =>
        var addr := EncodeAddr(linkAddr, size);
        var buf: seq<byte> := [START_FIXED];
        buf := buf + [Value(control)];
        buf := buf + addr;
        var cs := Checksum(Value(control), addr, []);
        buf := buf + [cs];
        buf := buf + [END_CHAR];
        assert buf == FixedOctets(Value(control), addr);
        return Ok(buf);
      case Variable(control, linkAddr, asdu) =>
        var addr := EncodeAddr(linkAddr, size);
        var lenField := 1 + |addr| + |asdu|;
        if lenField > MAX_LENGTH_FIELD {
          return Err(FrameInvalid);
        }
        var buf: seq<byte> := [START_VARIABLE, lenField, lenField, START_VARIABLE];
        buf := buf + [Value(control)];
        buf := buf + addr;
        buf := buf + asdu;
        var cs := Checksum(Value(control), addr, asdu);
        buf := buf + [cs];
        buf := buf + [END_CHAR];
        assert buf == VariableOctets(Value(control), addr, asdu);
        return Ok(buf);
    }
  }

  // ---- the reader ----

  /** One call of `read_frame`: a frame, a malformed one to resynchronise after, or the end of the stream. */
  datatype Reading = Got(frame: Frame) | Malformed | Closed

  function ReadFixed(body: seq<byte>, size: nat): Reading
    requires |body| == size + 3
  {
    var control, addr := body[0], body[1..1 + size];
    if body[size + 2] != END_CHAR then Malformed
    else if CheckOctet(control, addr, []) != body[size + 1] then Malformed
    else Got(Fixed(ParseControl(control), DecodeAddr(addr)))
  }

  function ReadBody(control: byte, body: seq<byte>, size: nat): Reading
    requires |body| >= size + 2
  {
    var n := |body|;
    var addr, asdu := body[..size], body[size..n - 2];
    if body[n - 1] != END_CHAR then Malformed
    else if CheckOctet(control, addr, asdu) != body[n - 2] then Malformed
    else Got(Variable(ParseControl(control), DecodeAddr(addr), asdu))
  }

  /** What `read_frame` makes of a stream, and what it leaves of it. */
  function Read(s: seq<byte>, size: nat): (r: (Reading, seq<byte>))
    ensures size <= MAX_ADDR_SIZE && r.0 != Closed ==> |r.1| < |s|
  {
    if size > MAX_ADDR_SIZE then (Malformed, s)
    else if s == [] then (Closed, [])
    else if s[0] == SINGLE_CHAR_ACK then (Got(SingleCharAck), s[1..])
    else if s[0] == START_FIXED then
      if |s| < size + 4 then (Closed, [])
      else (ReadFixed(s[1..size + 4], size), s[size + 4..])
    else if s[0] == START_VARIABLE then
      if |s| < 5 then (Closed, [])
      else if s[1] != s[2] || s[3] != START_VARIABLE || s[1] < 1 + size then (Malformed, s[5..])
      else
        var total: int := s[1];
        if |s| < total + 6 then (Closed, [])
        else (ReadBody(s[4], s[5..total + 6], size), s[total + 6..])
    else (Malformed, s[1..])
  }

  method ReadFrame(r: Stream, size: nat) returns (out: Reading)
    modifies r
    ensures out == Read(old(r.rest), size).0
    ensures out != Closed ==> r.rest == Read(old(r.rest), size).1
  {
    ghost var s := r.rest;
    if size > MAX_ADDR_SIZE {
      return Malformed;
    }
    var start := new byte[1];
    var more := r.ReadExact(start, 0, 1);
    if !more { return Closed; }
    assert start[0] == start[0..1][0] == s[0];
    if start[0] == SINGLE_CHAR_ACK {
      return Got(SingleCharAck);
    }
    if start[0] == START_FIXED {
      var buf := new byte[size + 3];
      more := r.ReadExact(buf, 0, size + 3);
      if !more { return Closed; }
      assert buf[..] == buf[0..size + 3] == s[1..size + 4];
      var cs := Checksum(buf[0], buf[1..1 + size], []);
      if buf[size + 2] != END_CHAR {
        return Malformed;
      }
      if cs != buf[size + 1] {
        return Malformed;
      }
      return Got(Fixed(ParseControl(buf[0]), DecodeAddr(buf[1..1 + size])));
    }
    if start[0] == START_VARIABLE {
      out := ReadVariable(r, size);
      assert s == [START_VARIABLE] + s[1..];
      return;
    }
    return Malformed;
  }

  method ReadVariable(r: Stream, size: nat) returns (out: Reading)
    requires size <= MAX_ADDR_SIZE
    modifies r
    ensures out == Read([START_VARIABLE] + old(r.rest), size).0
    ensures out != Closed ==> r.rest == Read([START_VARIABLE] + old(r.rest), size).1
  {
    ghost var s := [START_VARIABLE] + r.rest;
    var header := new byte[4];
    var more := r.ReadExact(header, 0, 4);
    if !more { return Closed; }
    assert header[..] == header[0..4] == s[1..5];
    assert forall i :: 0 <= i < 4 ==> header[..][i] == s[i + 1];
    assert r.rest == s[5..];
    if header[0] != header[1] || header[2] != START_VARIABLE || header[0] < 1 + size {
      return Malformed;
    }
    var bodyLen: nat := header[0];
    bodyLen := bodyLen + 1;
    var body := new byte[bodyLen];
    more := r.ReadExact(body, 0, bodyLen);
    if !more { return Closed; }
    assert body[..] == body[0..bodyLen] == s[5..bodyLen + 5];
    assert r.rest == s[bodyLen + 5..];
    var addr, asdu := body[..size], body[size..bodyLen - 2];
    var cs := Checksum(header[3], addr, asdu);
    if body[bodyLen - 1] != END_CHAR {
      return Malformed;
    }
    if cs != body[bodyLen - 2] {
      return Malformed;
    }
    return Got(Variable(ParseControl(header[3]), DecodeAddr(addr), asdu));
  }
}
