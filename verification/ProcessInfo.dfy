/**
 Process information (src/asdu/mproc.rs): the values of its twelve families and how they are written.
 Ten carry a list of objects, the packed events of protection equipment exactly one.

 A time tag is an opaque run of octets of its type's width.
 */
module ProcessInfo {
  import opened Octets
  import opened AsduCodec

  // ---- little endian octets ----

  function Pow256(k: nat): nat { if k == 0 then 1 else 256 * Pow256(k - 1) }

  function Le(n: nat, k: nat): (b: seq<byte>)
    ensures |b| == k
  {
    if k == 0 then [] else [n % 256] + Le(n / 256, k - 1)
  }

  function FromLe(b: seq<byte>): nat
    decreases |b|
  {
    if b == [] then 0
    else
      var low: int := b[0];
      low + 256 * FromLe(b[1..])
  }

  lemma {:induction false} LeRoundTrip(n: nat, k: nat)
    requires n < Pow256(k)
    ensures FromLe(Le(n, k)) == n
  {
    if k > 0 {
      LeRoundTrip(n / 256, k - 1);
      assert Le(n, k)[1..] == Le(n / 256, k - 1);
    }
  }

  lemma Digits(low: int, rest: nat)
    requires 0 <= low < 256
    ensures (low + 256 * rest) % 256 == low && (low + 256 * rest) / 256 == rest
  {
  }

  lemma {:induction false} LeOnto(b: seq<byte>)
    ensures FromLe(b) < Pow256(|b|) && Le(FromLe(b), |b|) == b
    decreases |b|
  {
    if b != [] {
      var rest := FromLe(b[1..]);
      LeOnto(b[1..]);
      Digits(b[0], rest);
      assert Le(FromLe(b), |b|) == [b[0]] + Le(rest, |b| - 1);
    }
  }

  // ---- the families ----

  datatype Family =
    | SinglePoint | DoublePoint | StepPosition | BitString32 | MeasuredNormal | MeasuredScaled | MeasuredFloat
    | IntegratedTotals | ProtectionEvent | PackedStart | PackedOutput | PackedScd

  datatype Tagging = Untagged | Cp24 | Cp56

  const M_ME_ND_1: byte := 21
  const M_PS_NA_1: byte := 20

  /** How a type of a family is tagged; None for a type of another family. */
  function TaggingOf(fam: Family, t: byte): Option<Tagging> {
    match fam
    case SinglePoint => if t == 1 then Some(Untagged) else if t == 2 then Some(Cp24) else if t == 30 then Some(Cp56) else None
    case DoublePoint => if t == 3 then Some(Untagged) else if t == 4 then Some(Cp24) else if t == 31 then Some(Cp56) else None
    case StepPosition => if t == 5 then Some(Untagged) else if t == 6 then Some(Cp24) else if t == 32 then Some(Cp56) else None
    case BitString32 => if t == 7 then Some(Untagged) else if t == 8 then Some(Cp24) else if t == 33 then Some(Cp56) else None
    case MeasuredNormal => if t in {9, M_ME_ND_1} then Some(Untagged) else if t == 10 then Some(Cp24) else if t == 34 then Some(Cp56) else None
    case MeasuredScaled => if t == 11 then Some(Untagged) else if t == 12 then Some(Cp24) else if t == 35 then Some(Cp56) else None
    case MeasuredFloat => if t == 13 then Some(Untagged) else if t == 14 then Some(Cp24) else if t == 36 then Some(Cp56) else None
    case IntegratedTotals => if t == 15 then Some(Untagged) else if t == 16 then Some(Cp24) else if t == 37 then Some(Cp56) else None
    case ProtectionEvent => if t == 17 then Some(Cp24) else if t == 38 then Some(Cp56) else None
    case PackedStart => if t == 18 then Some(Cp24) else if t == 39 then Some(Cp56) else None
    case PackedOutput => if t == 19 then Some(Cp24) else if t == 40 then Some(Cp56) else None
    case PackedScd => Some(Untagged)
  }

  function TagSize(tagging: Tagging): nat {
    match tagging case Untagged => 0 case Cp24 => 3 case Cp56 => 7
  }

  type Signed16 = v: int | -0x8000 <= v < 0x8000
  type Signed32 = v: int | -0x8000_0000 <= v < 0x8000_0000
  type Word = v: int | 0 <= v < 0x1_0000_0000
  type Half = v: int | 0 <= v < 0x1_0000
  type TwoBits = v: int | 0 <= v < 4
  type Signed8 = v: int | -128 <= v < 128

  /** What one object says besides its address and time; a float is its bit pattern. */
  datatype Value =
    | Single(on: bool, qds: byte)
    | Double(state: TwoBits, qds: byte)
    | Step(val: Signed8, transient: bool, qds: byte)
    | Bits(bits: Word, qds: byte)
    | Normal(nva: Signed16, qds: byte)
    | Scaled(sva: Signed16, qds: byte)
    | Float(pattern: Word, qds: byte)
    | Counter(reading: Signed32, number: byte, carry: bool, adjusted: bool, invalid: bool)
    | Event(event: TwoBits, qdp: byte, msec: Half)
    | Packed(bits8: byte, qdp: byte, msec: Half)
    | Scd(scd: Word, qds: byte)

  predicate Belongs(fam: Family, v: Value) {
    match fam
    case SinglePoint => v.Single?
    case DoublePoint => v.Double?
    case StepPosition => v.Step?
    case BitString32 => v.Bits?
    case MeasuredNormal => v.Normal?
    case MeasuredScaled => v.Scaled?
    case MeasuredFloat => v.Float?
    case IntegratedTotals => v.Counter?
    case ProtectionEvent => v.Event?
    case PackedStart => v.Packed?
    case PackedOutput => v.Packed?
    case PackedScd => v.Scd?
  }

  function Flag(b: bool, weight: nat): nat { if b then weight else 0 }

  /** The quality bits beside a point state, and those beside a protection event. */
  function High4(q: byte): byte { q - q % 16 }

  function High5(q: byte): byte { q - q % 8 }

  function Wrap16(v: Signed16): nat { if v < 0 then v + 0x1_0000 else v }

  function Wrap32(v: Signed32): nat { if v < 0 then v + 0x1_0000_0000 else v }

  function Unwrap16(n: nat): Signed16
    requires n < 0x1_0000
  {
    if n >= 0x8000 then n - 0x1_0000 else n
  }

  function Unwrap32(n: nat): Signed32
    requires n < 0x1_0000_0000
  {
    if n >= 0x8000_0000 then n - 0x1_0000_0000 else n
  }

  /** The low seven bits of a step position, and their sign. */
  function Step7(v: int): nat { v % 128 }

  function SignExtend7(n: nat): Signed8
    requires n < 128
  {
    if n >= 64 then n - 128 else n
  }

  function EncodeValue(t: byte, v: Value): seq<byte> {
    match v
    case Single(on, qds) => [Flag(on, 1) + High4(qds)]
    case Double(state, qds) => [state + High4(qds)]
    case Step(val, transient, qds) => [Step7(val) + Flag(transient, 128), qds]
    case Bits(bits, qds) => Le(bits, 4) + [qds]
    case Normal(nva, qds) => Le(Wrap16(nva), 2) + (if t == M_ME_ND_1 then [] else [qds])
    case Scaled(sva, qds) => Le(Wrap16(sva), 2) + [qds]
    case Float(pattern, qds) => Le(pattern, 4) + [High4(qds) + qds % 2]
    case Counter(reading, number, carry, adjusted, invalid) =>
      Le(Wrap32(reading), 4) + [number % 32 + Flag(carry, 32) + Flag(adjusted, 64) + Flag(invalid, 128)]
    case Event(event, qdp, msec) => [event + High5(qdp)] + Le(msec, 2)
    case Packed(bits8, qdp, msec) => [bits8, High5(qdp)] + Le(msec, 2)
    case Scd(scd, qds) => Le(scd, 4) + [qds]
  }

  /** Octets of a value, which a getter reads before it looks at the tagging of the type. */
  function ValueSize(fam: Family, t: byte): nat {
    match fam
    case SinglePoint => 1
    case DoublePoint => 1
    case StepPosition => 2
    case BitString32 => 5
    case MeasuredNormal => if t in {9, 10, 34} then 3 else 2
    case MeasuredScaled => 3
    case MeasuredFloat => 5
    case IntegratedTotals => 5
    case ProtectionEvent => 3
    case PackedStart => 4
    case PackedOutput => 4
    case PackedScd => 5
  }

  function DecodeValue(fam: Family, t: byte, b: seq<byte>): Value
    requires |b| == ValueSize(fam, t)
  {
    match fam
    case SinglePoint => Single(b[0] % 2 == 1, High4(b[0]))
    case DoublePoint => Double(b[0] % 4, High4(b[0]))
    case StepPosition => Step(SignExtend7(b[0] % 128), b[0] >= 128, b[1])
    case BitString32 => Bits(Word4(b[..4]), b[4])
    case MeasuredNormal => Normal(Unwrap16(Half2(b[..2])), if |b| == 3 then b[2] else 0)
    case MeasuredScaled => Scaled(Unwrap16(Half2(b[..2])), b[2])
    case MeasuredFloat => Float(Word4(b[..4]), High4(b[4]) + b[4] % 2)
    case IntegratedTotals => Counter(Unwrap32(Word4(b[..4])), b[4] % 32, b[4] / 32 % 2 == 1, b[4] / 64 % 2 == 1, b[4] >= 128)
    case ProtectionEvent => Event(b[0] % 4, High5(b[0]), Half2(b[1..]))
    case PackedStart => Packed(b[0], High5(b[1]), Half2(b[2..]))
    case PackedOutput => Packed(b[0], High5(b[1]), Half2(b[2..]))
    case PackedScd => Scd(Word4(b[..4]), b[4])
  }

  function Half2(b: seq<byte>): Half
    requires |b| == 2
  {
    LeOnto(b);
    FromLe(b)
  }

  function Word4(b: seq<byte>): Word
    requires |b| == 4
  {
    LeOnto(b);
    FromLe(b)
  }

  /** What survives of a value: documented quality masks and field widths. */
  function Masked(t: byte, v: Value): Value {
    match v
    case Single(on, qds) => Single(on, High4(qds))
    case Double(state, qds) => Double(state, High4(qds))
    case Step(val, transient, qds) => Step(SignExtend7(Step7(val)), transient, qds)
    case Normal(nva, qds) => Normal(nva, if t == M_ME_ND_1 then 0 else qds)
    case Float(pattern, qds) => Float(pattern, High4(qds) + qds % 2)
    case Counter(reading, number, carry, adjusted, invalid) => Counter(reading, number % 32, carry, adjusted, invalid)
    case Event(event, qdp, msec) => Event(event, High5(qdp), msec)
    case Packed(bits8, qdp, msec) => Packed(bits8, High5(qdp), msec)
    case _ => v
  }

  lemma Le2(n: Half)
    ensures Half2(Le(n, 2)) == n
  {
    LeRoundTrip(n, 2);
  }

  lemma Le4(n: Word)
    ensures Word4(Le(n, 4)) == n
  {
    assert Pow256(4) == 0x1_0000_0000;
    LeRoundTrip(n, 4);
  }

  /** The octet of a counter: a sequence number and three flags. */
  lemma CounterOctet(number: byte, carry: bool, adjusted: bool, invalid: bool)
    ensures var b := number % 32 + Flag(carry, 32) + Flag(adjusted, 64) + Flag(invalid, 128);
      && 0 <= b < 256 && b % 32 == number % 32 && (b / 32 % 2 == 1) == carry && (b / 64 % 2 == 1) == adjusted && (b >= 128) == invalid
  {
  }

  lemma HighOctet4(low: int, q: byte)
    requires 0 <= low < 16
    ensures var b := low + High4(q);
      b < 256 && b % 16 == low && b - b % 16 == High4(q) && b % 4 == low % 4 && b % 2 == low % 2
  {
  }

  lemma HighOctet5(low: int, q: byte)
    requires 0 <= low < 8
    ensures var b := low + High5(q);
      b < 256 && b - b % 8 == High5(q) && b % 4 == low % 4
  {
  }

  lemma PointRoundTrip(t: byte, on: bool, state: TwoBits, qds: byte)
    ensures DecodeValue(SinglePoint, t, EncodeValue(t, Single(on, qds))) == Masked(t, Single(on, qds))
    ensures DecodeValue(DoublePoint, t, EncodeValue(t, Double(state, qds))) == Masked(t, Double(state, qds))
  {
    HighOctet4(Flag(on, 1), qds);
    HighOctet4(state, qds);
  }

  lemma StepRoundTrip(t: byte, val: Signed8, transient: bool, qds: byte)
    ensures DecodeValue(StepPosition, t, EncodeValue(t, Step(val, transient, qds))) == Masked(t, Step(val, transient, qds))
  {
  }

  lemma WordRoundTrip(t: byte, w: Word, qds: byte)
    ensures DecodeValue(BitString32, t, EncodeValue(t, Bits(w, qds))) == Masked(t, Bits(w, qds))
    ensures DecodeValue(PackedScd, t, EncodeValue(t, Scd(w, qds))) == Masked(t, Scd(w, qds))
  {
    Le4(w);
    assert (Le(w, 4) + [qds])[..4] == Le(w, 4);
  }

  lemma FloatRoundTrip(t: byte, w: Word, qds: byte)
    ensures DecodeValue(MeasuredFloat, t, EncodeValue(t, Float(w, qds))) == Masked(t, Float(w, qds))
  {
    Le4(w);
    HighOctet4(qds % 2, qds);
    assert (Le(w, 4) + [High4(qds) + qds % 2])[..4] == Le(w, 4);
  }

  lemma NormalRoundTrip(t: byte, v: Signed16, qds: byte)
    requires TaggingOf(MeasuredNormal, t).Some?
    ensures DecodeValue(MeasuredNormal, t, EncodeValue(t, Normal(v, qds))) == Masked(t, Normal(v, qds))
  {
    Le2(Wrap16(v));
    assert (Le(Wrap16(v), 2) + [qds])[..2] == Le(Wrap16(v), 2);
    assert (Le(Wrap16(v), 2) + [])[..2] == Le(Wrap16(v), 2);
  }

  lemma ScaledRoundTrip(t: byte, v: Signed16, qds: byte)
    ensures DecodeValue(MeasuredScaled, t, EncodeValue(t, Scaled(v, qds))) == Masked(t, Scaled(v, qds))
  {
    Le2(Wrap16(v));
    assert (Le(Wrap16(v), 2) + [qds])[..2] == Le(Wrap16(v), 2);
  }

  lemma CounterRoundTrip(t: byte, v: Value)
    requires v.Counter?
    ensures DecodeValue(IntegratedTotals, t, EncodeValue(t, v)) == Masked(t, v)
  {
    Le4(Wrap32(v.reading));
    CounterOctet(v.number, v.carry, v.adjusted, v.invalid);
    assert EncodeValue(t, v)[..4] == Le(Wrap32(v.reading), 4);
  }

  lemma EventRoundTrip(t: byte, event: TwoBits, qdp: byte, msec: Half)
    ensures DecodeValue(ProtectionEvent, t, EncodeValue(t, Event(event, qdp, msec))) == Masked(t, Event(event, qdp, msec))
  {
    Le2(msec);
    HighOctet5(event, qdp);
    assert ([event + High5(qdp)] + Le(msec, 2))[1..] == Le(msec, 2);
  }

  lemma PackedRoundTrip(t: byte, bits8: byte, qdp: byte, msec: Half)
    ensures DecodeValue(PackedStart, t, EncodeValue(t, Packed(bits8, qdp, msec))) == Masked(t, Packed(bits8, qdp, msec))
    ensures DecodeValue(PackedOutput, t, EncodeValue(t, Packed(bits8, qdp, msec))) == Masked(t, Packed(bits8, qdp, msec))
  {
    Le2(msec);
    HighOctet5(0, qdp);
    assert ([bits8, High5(qdp)] + Le(msec, 2))[2..] == Le(msec, 2);
  }

  /** A value has the size its family and type say, and comes back up to the masks. */
  lemma ValueRoundTrip(fam: Family, t: byte, v: Value)
    requires Belongs(fam, v) && TaggingOf(fam, t).Some?
    ensures |EncodeValue(t, v)| == ValueSize(fam, t)
    ensures DecodeValue(fam, t, EncodeValue(t, v)) == Masked(t, v)
  {
    match v
    case Single(on, qds) => PointRoundTrip(t, on, 0, qds);
    case Double(state, qds) => PointRoundTrip(t, false, state, qds);
    case Step(val, transient, qds) => StepRoundTrip(t, val, transient, qds);
    case Bits(bits, qds) => WordRoundTrip(t, bits, qds);
    case Normal(nva, qds) => NormalRoundTrip(t, nva, qds);
    case Scaled(sva, qds) => ScaledRoundTrip(t, sva, qds);
    case Float(pattern, qds) => FloatRoundTrip(t, pattern, qds);
    case Counter(_, _, _, _, _) => CounterRoundTrip(t, v);
    case Event(event, qdp, msec) => EventRoundTrip(t, event, qdp, msec);
    case Packed(bits8, qdp, msec) => PackedRoundTrip(t, bits8, qdp, msec);
    case Scd(scd, qds) => WordRoundTrip(t, scd, qds);
  }

  /** The size table of the codec is the width of a value and its tag. */
  lemma SizesAgree(fam: Family, t: byte)
    requires TaggingOf(fam, t).Some? && (fam.PackedScd? ==> t == M_PS_NA_1)
    ensures InfoObjSize(t) == Some(ValueSize(fam, t) + TagSize(TaggingOf(fam, t).value))
  {
  }
}
