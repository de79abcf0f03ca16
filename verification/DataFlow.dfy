/**
 One direction of a 104 connection: the data one driver sends, the FIFO channel that carries it,
 and the acknowledgements that come back among the other direction's frames.

 The counters of both drivers are 15 bits wide. The histories `tx` (payloads transmitted) and
 `rx` (payloads accepted) give them unbounded meaning, and `Flow` says how the two agree.
 */
module DataFlow {
  import opened Octets
  import opened Apci
  import opened Connection
  import opened SendWindow

  type Payload = seq<byte>
  type Channel = seq<Apdu>

  /** The payloads on their way, oldest first. */
  function Payloads(ch: Channel): seq<Payload> {
    if ch == [] then []
    else if ch[0].I? then [ch[0].asdu] + Payloads(ch[1..])
    else Payloads(ch[1..])
  }

  /** The I-frames in the channel are numbered consecutively from n. */
  predicate Numbered(ch: Channel, n: nat) {
    if ch == [] then true
    else if ch[0].I? then ch[0].sendSn == Wrap(n) && Numbered(ch[1..], n + 1)
    else Numbered(ch[1..], n)
  }

  /** The last of the acknowledgements in flight, read from `base` onwards in unbounded counters. */
  function Acks(base: nat, ch: Channel): (last: nat)
    ensures base <= last
    decreases |ch|
  {
    if ch == [] then base
    else if ch[0].U? then Acks(base, ch[1..])
    else Acks(Resolve(base, ch[0].recvSn), ch[1..])
  }

  /** All the acknowledgements in flight, in unbounded counters, oldest first. */
  function AckValues(base: nat, ch: Channel): seq<nat>
    decreases |ch|
  {
    if ch == [] then []
    else if ch[0].U? then AckValues(base, ch[1..])
    else
      var n := Resolve(base, ch[0].recvSn);
      [n] + AckValues(n, ch[1..])
  }

  /** Never decreasing, between the bounds. */
  predicate Ascending(low: int, values: seq<nat>, high: int)
    decreases |values|
  {
    if values == [] then low <= high else low <= values[0] && Ascending(values[0], values[1..], high)
  }

  lemma {:induction false} AcksAscend(base: nat, ch: Channel)
    ensures Ascending(base, AckValues(base, ch), Acks(base, ch))
    decreases |ch|
  {
    if ch != [] {
      if ch[0].U? {
        AcksAscend(base, ch[1..]);
      } else {
        var n := Resolve(base, ch[0].recvSn);
        AcksAscend(n, ch[1..]);
        assert AckValues(base, ch)[1..] == AckValues(n, ch[1..]);
      }
    }
  }

  /** The frames a driver writes are ones the codec carries unchanged. */
  predicate Carried(ch: Channel) {
    forall i :: 0 <= i < |ch| ==> WellFormed(ch[i])
  }

  lemma {:induction false} PayloadsAppend(ch: Channel, m: Apdu)
    ensures Payloads(ch + [m]) == Payloads(ch) + (if m.I? then [m.asdu] else [])
  {
    if ch == [] {
    } else {
      assert (ch + [m])[1..] == ch[1..] + [m];
      PayloadsAppend(ch[1..], m);
    }
  }

  lemma {:induction false} NumberedAppend(ch: Channel, n: nat, m: Apdu)
    requires Numbered(ch, n)
    requires m.I? ==> m.sendSn == Wrap(n + |Payloads(ch)|)
    ensures Numbered(ch + [m], n)
    decreases |ch|
  {
    if ch == [] {
    } else {
      assert (ch + [m])[1..] == ch[1..] + [m];
      NumberedAppend(ch[1..], if ch[0].I? then n + 1 else n, m);
    }
  }

  lemma {:induction false} AcksAppend(base: nat, ch: Channel, m: Apdu)
    ensures Acks(base, ch + [m]) == if m.U? then Acks(base, ch) else Resolve(Acks(base, ch), m.recvSn)
    decreases |ch|
  {
    if ch == [] {
    } else {
      assert (ch + [m])[1..] == ch[1..] + [m];
      AcksAppend(if ch[0].U? then base else Resolve(base, ch[0].recvSn), ch[1..], m);
    }
  }

  /**
   a sends to b. `acked` and `owed` are the unbounded values of a's ack_no_send and b's ack_no_rcv;
   the acknowledgements in flight lead from one to the other.
   */
  ghost predicate FlowAt(a: State, b: State, tx: seq<Payload>, rx: seq<Payload>, ab: Channel, ba: Channel,
                         acked: nat, owed: nat)
  {
    && SendsWindow(a, acked, |tx|)
    && owed <= |rx| < owed + SEQ_MODULUS
    && b.seqNoRcv == Wrap(|rx|) && b.ackNoRcv == Wrap(owed)
    && tx == rx + Payloads(ab)
    && Numbered(ab, |rx|)
    && Acks(acked, ba) == owed
  }

  function Acked(a: State, tx: seq<Payload>): int { |tx| - InFlight(a) }

  function Owed(b: State, rx: seq<Payload>): int { |rx| - Unacknowledged(b) }

  ghost predicate Flow(a: State, b: State, tx: seq<Payload>, rx: seq<Payload>, ab: Channel, ba: Channel) {
    Acked(a, tx) >= 0 && Owed(b, rx) >= 0 && FlowAt(a, b, tx, rx, ab, ba, Acked(a, tx), Owed(b, rx))
  }

  /** The counters of a flow are determined by the 15 bit ones. */
  lemma CountersOf(a: State, b: State, tx: seq<Payload>, rx: seq<Payload>, ab: Channel, ba: Channel, acked: nat, owed: nat)
    requires FlowAt(a, b, tx, rx, ab, ba, acked, owed)
    ensures Acked(a, tx) == acked && Owed(b, rx) == owed
    ensures Flow(a, b, tx, rx, ab, ba)
  {
    SeqNoCountIsDistance(acked, |tx|);
    SeqNoCountIsDistance(owed, |rx|);
  }

  lemma InitialFlow(a: Role, b: Role)
    ensures Flow(Initial(a), Initial(b), [], [], [], [])
  {
    CountersOf(Initial(a), Initial(b), [], [], [], [], 0, 0);
  }

  /** The chain of counters: acked <= acks in flight <= owed <= accepted <= transmitted <= acked + window. */
  lemma CounterOrder(a: State, b: State, tx: seq<Payload>, rx: seq<Payload>, ab: Channel, ba: Channel)
    requires Flow(a, b, tx, rx, ab, ba)
    ensures Acked(a, tx) <= Owed(b, rx) <= |rx| <= |tx| == Acked(a, tx) + InFlight(a)
    ensures rx == tx[..|rx|]
  {
  }

  /** a and b agree on the fields that carry the flow from a to b. */
  predicate SameFlow(a: State, a': State, b: State, b': State) {
    && a'.seqNoSend == a.seqNoSend && a'.ackNoSend == a.ackNoSend && a'.pending == a.pending
    && b'.seqNoRcv == b.seqNoRcv && b'.ackNoRcv == b.ackNoRcv
  }

  lemma SendData(a: State, b: State, tx: seq<Payload>, rx: seq<Payload>, ab: Channel, ba: Channel,
                 a': State, m: Apdu)
    requires Flow(a, b, tx, rx, ab, ba)
    requires InFlight(a) < 32767
    requires m.I? && m.sendSn == a.seqNoSend
    requires a'.seqNoSend == Wrap(a.seqNoSend + 1) && a'.ackNoSend == a.ackNoSend
    requires a'.pending == a.pending + [a.seqNoSend]
    ensures Flow(a', b, tx + [m.asdu], rx, ab + [m], ba)
  {
    var acked := Acked(a, tx);
    PayloadsAppend(ab, m);
    NumberedAppend(ab, |rx|, m);
    WrapOfWrap(|tx|, 1);
    GrownWindow(acked, |tx|);
    assert tx + [m.asdu] == rx + (Payloads(ab) + [m.asdu]);
    CountersOf(a', b, tx + [m.asdu], rx, ab + [m], ba, acked, Owed(b, rx));
  }

  lemma GrownWindow(acked: nat, sent: nat)
    requires acked <= sent
    ensures Window(Wrap(acked), sent - acked) + [Wrap(sent)] == Window(Wrap(acked), sent + 1 - acked)
  {
    WindowAt(acked, sent + 1 - acked, sent - acked);
  }

  /** b acknowledges everything it accepted, in an S-frame or on the back of an I-frame. */
  lemma SendAck(a: State, b: State, tx: seq<Payload>, rx: seq<Payload>, ab: Channel, ba: Channel, b': State, m: Apdu)
    requires Flow(a, b, tx, rx, ab, ba)
    requires !m.U? && m.recvSn == b.seqNoRcv
    requires b'.seqNoRcv == b.seqNoRcv == b'.ackNoRcv
    ensures Flow(a, b', tx, rx, ab, ba + [m])
  {
    var acked := Acked(a, tx);
    AcksAppend(acked, ba, m);
    ResolveIsUnique(Owed(b, rx), |rx|);
    CountersOf(a, b', tx, rx, ab, ba + [m], acked, |rx|);
  }

  /** a takes the oldest acknowledgement in flight: it is always inside the window. */
  lemma TakeAck(a: State, b: State, tx: seq<Payload>, rx: seq<Payload>, ab: Channel, ba: Channel)
    requires Flow(a, b, tx, rx, ab, ba)
    requires ba != [] && !ba[0].U?
    ensures UpdateAck(a, ba[0].recvSn).Some?
    ensures Flow(UpdateAck(a, ba[0].recvSn).value, b, tx, rx, ab, ba[1..])
  {
    var acked, owed := Acked(a, tx), Owed(b, rx);
    var n := Resolve(acked, ba[0].recvSn);
    assert Acks(n, ba[1..]) == owed;
    UpdateAckRefinesWindow(a, acked, |tx|, n);
    CountersOf(UpdateAck(a, ba[0].recvSn).value, b, tx, rx, ab, ba[1..], n, owed);
  }

  lemma TakeDataAt(a: State, b: State, tx: seq<Payload>, rx: seq<Payload>, ab: Channel, ba: Channel, b': State,
                   acked: nat, owed: nat)
    requires FlowAt(a, b, tx, rx, ab, ba, acked, owed)
    requires ab != [] && ab[0].I? && |rx| + 1 < owed + SEQ_MODULUS
    requires b'.seqNoRcv == Wrap(b.seqNoRcv + 1) && b'.ackNoRcv == b.ackNoRcv
    ensures ab[0].sendSn == b.seqNoRcv
    ensures FlowAt(a, b', tx, rx + [ab[0].asdu], ab[1..], ba, acked, owed)
  {
    var rx' := rx + [ab[0].asdu];
    WrapOfWrap(|rx|, 1);
    assert Payloads(ab) == [ab[0].asdu] + Payloads(ab[1..]);
    assert rx + ([ab[0].asdu] + Payloads(ab[1..])) == rx' + Payloads(ab[1..]);
    assert Numbered(ab[1..], |rx'|);
  }

  /** b takes the oldest I-frame: it is always the next in sequence. */
  lemma TakeData(a: State, b: State, tx: seq<Payload>, rx: seq<Payload>, ab: Channel, ba: Channel, b': State)
    requires Flow(a, b, tx, rx, ab, ba)
    requires ab != [] && ab[0].I?
    requires Unacknowledged(b) < 32767
    requires b'.seqNoRcv == Wrap(b.seqNoRcv + 1) && b'.ackNoRcv == b.ackNoRcv
    ensures ab[0].sendSn == b.seqNoRcv
    ensures Flow(a, b', tx, rx + [ab[0].asdu], ab[1..], ba)
  {
    var acked, owed := Acked(a, tx), Owed(b, rx);
    TakeDataAt(a, b, tx, rx, ab, ba, b', acked, owed);
    CountersOf(a, b', tx, rx + [ab[0].asdu], ab[1..], ba, acked, owed);
  }

  /** Frames that carry nothing for this direction come and go without touching it. */
  lemma Quiet(a: State, b: State, tx: seq<Payload>, rx: seq<Payload>, ab: Channel, ba: Channel,
              a': State, b': State, ab': Channel, ba': Channel)
    requires Flow(a, b, tx, rx, ab, ba)
    requires SameFlow(a, a', b, b')
    requires
      || (ab' == ab)
      || (ab != [] && !ab[0].I? && ab' == ab[1..])
      || (|ab'| > 0 && ab'[..|ab'| - 1] == ab && !ab'[|ab'| - 1].I?)
    requires
      || (ba' == ba)
      || (ba != [] && ba[0].U? && ba' == ba[1..])
      || (|ba'| > 0 && ba'[..|ba'| - 1] == ba && ba'[|ba'| - 1].U?)
    ensures Flow(a', b', tx, rx, ab', ba')
  {
    if |ab'| > |ab| {
      assert ab' == ab + [ab'[|ab'| - 1]];
      PayloadsAppend(ab, ab'[|ab'| - 1]);
      NumberedAppend(ab, |rx|, ab'[|ab'| - 1]);
    }
    if |ba'| > |ba| {
      assert ba' == ba + [ba'[|ba'| - 1]];
      AcksAppend(Acked(a, tx), ba, ba'[|ba'| - 1]);
    }
    CountersOf(a', b', tx, rx, ab', ba', Acked(a, tx), Owed(b, rx));
  }
}
