/**
 What the FT1.2 format promises on a line: frames survive a stream with noise between them, and
 one corrupted octet never passes for a frame.
 */
module Ft12Stream {
  import opened Octets
  import opened Ft12

  /** A frame the format can carry at this link address width. */
  predicate Marshallable(f: Frame, size: nat) {
    match f
    case SingleCharAck => true
    case Fixed(c, a) => Canonical(c) && AddrFits(a, size)
    case Variable(c, a, asdu) => Canonical(c) && AddrFits(a, size) && 1 + size + |asdu| <= MAX_LENGTH_FIELD
  }

  lemma AddrRoundTrip(a: LinkAddr, size: nat)
    requires size <= MAX_ADDR_SIZE && AddrFits(a, size)
    ensures |EncodeAddr(a, size)| == size && DecodeAddr(EncodeAddr(a, size)) == a
  {
  }

  /** A frame is marshalled exactly when its length octet can count it. */
  lemma MarshalSucceeds(f: Frame, size: nat)
    requires size <= MAX_ADDR_SIZE
    ensures Marshal(f, size).Ok? <==> (f.Variable? ==> 1 + size + |f.asdu| <= MAX_LENGTH_FIELD)
    ensures Marshal(f, size).Ok? ==> |Marshal(f, size).value| > 0
  {
  }

  lemma ReadFixedFrame(c: ControlField, a: LinkAddr, size: nat, tail: seq<byte>)
    requires size <= MAX_ADDR_SIZE && Marshallable(Fixed(c, a), size)
    ensures Read(Marshal(Fixed(c, a), size).value + tail, size) == (Got(Fixed(c, a)), tail)
  {
    var addr := EncodeAddr(a, size);
    var e := FixedOctets(Value(c), addr);
    AddrRoundTrip(a, size);
    ControlRoundTrip(c);
    var body := [Value(c)] + addr + [CheckOctet(Value(c), addr, []), END_CHAR];
    assert e + tail == [START_FIXED] + body + tail;
    assert (e + tail)[1..size + 4] == body && (e + tail)[size + 4..] == tail;
    assert body[1..1 + size] == addr;
  }

  lemma ReadVariableFrame(c: ControlField, a: LinkAddr, asdu: seq<byte>, size: nat, tail: seq<byte>)
    requires size <= MAX_ADDR_SIZE && Marshallable(Variable(c, a, asdu), size)
    ensures Read(Marshal(Variable(c, a, asdu), size).value + tail, size) == (Got(Variable(c, a, asdu)), tail)
  {
    var addr := EncodeAddr(a, size);
    AddrRoundTrip(a, size);
    ControlRoundTrip(c);
    var e := VariableOctets(Value(c), addr, asdu);
    var l := 1 + size + |asdu|;
    var body := (e + tail)[5..l + 6];
    assert (e + tail)[l + 6..] == tail;
    BodyParts(Value(c), addr, asdu, tail);
  }

  lemma BodyParts(control: byte, addr: seq<byte>, asdu: seq<byte>, tail: seq<byte>)
    requires 1 + |addr| + |asdu| <= MAX_LENGTH_FIELD
    ensures var body := (VariableOctets(control, addr, asdu) + tail)[5..7 + |addr| + |asdu|];
      && body[..|addr|] == addr && body[|addr|..|addr| + |asdu|] == asdu
      && body[|addr| + |asdu|] == CheckOctet(control, addr, asdu) && body[|addr| + |asdu| + 1] == END_CHAR
  {
    var cs := CheckOctet(control, addr, asdu);
    assert (VariableOctets(control, addr, asdu) + tail)[5..7 + |addr| + |asdu|] == addr + asdu + [cs, END_CHAR];
  }

  lemma ReadMarshalled(f: Frame, size: nat, tail: seq<byte>)
    requires size <= MAX_ADDR_SIZE && Marshallable(f, size)
    ensures Marshal(f, size).Ok?
    ensures Read(Marshal(f, size).value + tail, size) == (Got(f), tail)
  {
    match f
    case SingleCharAck => assert ([SINGLE_CHAR_ACK] + tail)[1..] == tail;
    case Fixed(c, a) => ReadFixedFrame(c, a, size, tail);
    case Variable(c, a, asdu) => ReadVariableFrame(c, a, asdu, size, tail);
  }

  // ---- streams ----

  /** The readings of the loop both endpoints run, until the stream ends. */
  function ReadAll(s: seq<byte>, size: nat): seq<Reading>
    requires size <= MAX_ADDR_SIZE
    decreases |s|
  {
    var (out, rest) := Read(s, size);
    if out == Closed then [] else [out] + ReadAll(rest, size)
  }

  function Frames(readings: seq<Reading>): seq<Frame> {
    if readings == [] then []
    else if readings[0].Got? then [readings[0].frame] + Frames(readings[1..])
    else Frames(readings[1..])
  }

  function Errors(readings: seq<Reading>): nat {
    if readings == [] then 0 else (if readings[0] == Malformed then 1 else 0) + Errors(readings[1..])
  }

  predicate IsNoise(s: seq<byte>) {
    START_FIXED !in s && START_VARIABLE !in s && SINGLE_CHAR_ACK !in s
  }

  datatype Arrival = Arrival(noise: seq<byte>, frame: Frame)

  predicate CleanArrivals(items: seq<Arrival>, size: nat) {
    forall i :: 0 <= i < |items| ==> IsNoise(items[i].noise) && Marshallable(items[i].frame, size)
  }

  function Raw(f: Frame, size: nat): seq<byte> {
    match Marshal(f, size)
    case Ok(raw) => raw
    case Err(_) => []
  }

  function Wire(items: seq<Arrival>, size: nat): seq<byte> {
    if items == [] then [] else items[0].noise + (Raw(items[0].frame, size) + Wire(items[1..], size))
  }

  function NoiseOctets(items: seq<Arrival>): nat {
    if items == [] then 0 else |items[0].noise| + NoiseOctets(items[1..])
  }

  function FramesOf(items: seq<Arrival>): seq<Frame> {
    if items == [] then [] else [items[0].frame] + FramesOf(items[1..])
  }

  lemma {:induction false} NoiseCostsErrors(noise: seq<byte>, s: seq<byte>, size: nat)
    requires size <= MAX_ADDR_SIZE && IsNoise(noise)
    ensures Frames(ReadAll(noise + s, size)) == Frames(ReadAll(s, size))
    ensures Errors(ReadAll(noise + s, size)) == |noise| + Errors(ReadAll(s, size))
  {
    if noise == [] {
      assert noise + s == s;
    } else {
      assert (noise + s)[0] in noise;
      assert (noise + s)[1..] == noise[1..] + s;
      NoiseCostsErrors(noise[1..], s, size);
      assert ReadAll(noise + s, size) == [Malformed] + ReadAll(noise[1..] + s, size);
    }
  }

  /**
   Reading a stream of marshalled frames with noise between and after them returns exactly those
   frames; each noise octet costs one error, and no octet is left over.
   */
  lemma {:induction false} StreamRoundTrip(items: seq<Arrival>, tail: seq<byte>, size: nat)
    requires size <= MAX_ADDR_SIZE && CleanArrivals(items, size) && IsNoise(tail)
    ensures Frames(ReadAll(Wire(items, size) + tail, size)) == FramesOf(items)
    ensures Errors(ReadAll(Wire(items, size) + tail, size)) == NoiseOctets(items) + |tail|
    decreases |items|
  {
    if items == [] {
      NoiseCostsErrors(tail, [], size);
      assert Wire(items, size) + tail == tail == tail + [];
      assert ReadAll([], size) == [];
    } else {
      var e, rest := Raw(items[0].frame, size), Wire(items[1..], size) + tail;
      assert Wire(items, size) + tail == items[0].noise + (e + rest);
      NoiseCostsErrors(items[0].noise, e + rest, size);
      ReadMarshalled(items[0].frame, size, rest);
      assert ReadAll(e + rest, size) == [Got(items[0].frame)] + ReadAll(rest, size);
      StreamRoundTrip(items[1..], tail, size);
    }
  }

  // ---- error detection ----

  lemma CheckOctetDetects(control: byte, addr: seq<byte>, asdu: seq<byte>, addr': seq<byte>, asdu': seq<byte>, i: nat)
    requires |addr'| == |addr| && |asdu'| == |asdu| && i < |addr + asdu|
    requires addr' + asdu' == (addr + asdu)[i := (addr' + asdu')[i]]
    requires (addr' + asdu')[i] != (addr + asdu)[i]
    ensures CheckOctet(control, addr', asdu') != CheckOctet(control, addr, asdu)
  {
    var s, b := addr + asdu, (addr' + asdu')[i];
    SumUpdate(s, i, b);
    SumUpdate(s, i, 0);
    SumsDiffer(control + Sum(s), s[i], b);
  }

  /** Two totals that differ by less than a whole octet have different check octets. */
  lemma SumsDiffer(total: nat, was: byte, now: byte)
    requires was != now && total >= was
    ensures (total - was + now) % 256 != total % 256
  {
  }

  lemma FixedBodyErrorDetected(control: byte, addr: seq<byte>, i: nat, b: byte)
    requires var body := [control] + addr + [CheckOctet(control, addr, []), END_CHAR]; i < |body| && b != body[i]
    ensures ReadFixed(([control] + addr + [CheckOctet(control, addr, []), END_CHAR])[i := b], |addr|) == Malformed
  {
    var size := |addr|;
    var body := [control] + addr + [CheckOctet(control, addr, []), END_CHAR];
    var addr' := body[i := b][1..1 + size];
    if 1 <= i < size + 1 {
      assert addr' == addr[i - 1 := b];
      assert addr + [] == addr && addr' + [] == addr';
      CheckOctetDetects(control, addr, [], addr', [], i - 1);
    } else {
      assert addr' == addr;
      if i == 0 { SumsDiffer(control + Sum(addr + []), control, b); }
    }
  }

  lemma FixedErrorDetected(control: byte, addr: seq<byte>, i: nat, b: byte, tail: seq<byte>)
    requires |addr| <= MAX_ADDR_SIZE
    requires var e := FixedOctets(control, addr); 0 < i < |e| && b != e[i]
    ensures Read(FixedOctets(control, addr)[i := b] + tail, |addr|).0 == Malformed
  {
    var body := [control] + addr + [CheckOctet(control, addr, []), END_CHAR];
    assert FixedOctets(control, addr) == [START_FIXED] + body;
    var s := FixedOctets(control, addr)[i := b] + tail;
    assert s == [START_FIXED] + body[i - 1 := b] + tail;
    assert s[1..|addr| + 4] == body[i - 1 := b];
    FixedBodyErrorDetected(control, addr, i - 1, b);
  }

  lemma HeaderErrorDetected(control: byte, addr: seq<byte>, asdu: seq<byte>, i: nat, b: byte, tail: seq<byte>)
    requires |addr| <= MAX_ADDR_SIZE && 1 + |addr| + |asdu| <= MAX_LENGTH_FIELD
    requires var e := VariableOctets(control, addr, asdu); 0 < i < 4 && b != e[i]
    ensures Read(VariableOctets(control, addr, asdu)[i := b] + tail, |addr|).0 == Malformed
  {
  }

  lemma BodyErrorDetected(control: byte, addr: seq<byte>, asdu: seq<byte>, i: nat, b: byte)
    requires |addr| <= MAX_ADDR_SIZE && 1 + |addr| + |asdu| <= MAX_LENGTH_FIELD
    requires var body := addr + asdu + [CheckOctet(control, addr, asdu), END_CHAR]; i < |body| && b != body[i]
    ensures ReadBody(control, (addr + asdu + [CheckOctet(control, addr, asdu), END_CHAR])[i := b], |addr|) == Malformed
  {
    var n := |addr| + |asdu|;
    var s := addr + asdu;
    var body := s + [CheckOctet(control, addr, asdu), END_CHAR];
    var body' := body[i := b];
    var addr', asdu' := body'[..|addr|], body'[|addr|..n];
    if i < n {
      assert addr' + asdu' == s[i := b];
      CheckOctetDetects(control, addr, asdu, addr', asdu', i);
    } else {
      assert addr' == addr && asdu' == asdu;
    }
  }

  lemma ControlErrorDetected(control: byte, addr: seq<byte>, asdu: seq<byte>, b: byte)
    requires b != control
    ensures ReadBody(b, addr + asdu + [CheckOctet(control, addr, asdu), END_CHAR], |addr|) == Malformed
  {
    var body := addr + asdu + [CheckOctet(control, addr, asdu), END_CHAR];
    assert body[..|addr|] == addr && body[|addr|..|addr| + |asdu|] == asdu;
    SumsDiffer(control + Sum(addr + asdu), control, b);
  }

  lemma VariableErrorDetected(control: byte, addr: seq<byte>, asdu: seq<byte>, i: nat, b: byte, tail: seq<byte>)
    requires |addr| <= MAX_ADDR_SIZE && 1 + |addr| + |asdu| <= MAX_LENGTH_FIELD
    requires var e := VariableOctets(control, addr, asdu); 4 <= i < |e| && b != e[i]
    ensures Read(VariableOctets(control, addr, asdu)[i := b] + tail, |addr|).0 == Malformed
  {
    var l: byte := 1 + |addr| + |asdu|;
    var total: nat := l;
    var head: seq<byte> := [START_VARIABLE, l, l, START_VARIABLE, control];
    var body := addr + asdu + [CheckOctet(control, addr, asdu), END_CHAR];
    assert VariableOctets(control, addr, asdu) == head + body;
    var s := VariableOctets(control, addr, asdu)[i := b] + tail;
    if i == 4 {
      assert s == [START_VARIABLE, l, l, START_VARIABLE, b] + body + tail;
      assert s[5..total + 6] == body;
      ControlErrorDetected(control, addr, asdu, b);
    } else {
      assert s == head + body[i - 5 := b] + tail;
      assert s[5..total + 6] == body[i - 5 := b];
      BodyErrorDetected(control, addr, asdu, i - 5, b);
    }
  }

  /**
   Replacing any one octet of a marshalled frame other than the first makes the reader report an
   error, whatever the length of the frame and whatever follows it on the line.
   */
  lemma SingleOctetErrorDetected(f: Frame, size: nat, i: nat, b: byte, tail: seq<byte>)
    requires size <= MAX_ADDR_SIZE && Marshallable(f, size)
    requires 0 < i < |Raw(f, size)| && b != Raw(f, size)[i]
    ensures Read(Raw(f, size)[i := b] + tail, size).0 == Malformed
  {
    match f
    case SingleCharAck =>
    case Fixed(c, a) =>
      AddrRoundTrip(a, size);
      FixedErrorDetected(Value(c), EncodeAddr(a, size), i, b, tail);
    case Variable(c, a, asdu) =>
      AddrRoundTrip(a, size);
      if i < 4 {
        HeaderErrorDetected(Value(c), EncodeAddr(a, size), asdu, i, b, tail);
      } else {
        VariableErrorDetected(Value(c), EncodeAddr(a, size), asdu, i, b, tail);
      }
  }
}
