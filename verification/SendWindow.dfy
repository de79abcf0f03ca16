/**
 The send window of one 104 driver in unbounded counters: the pending queue is always the exact
 window of unconfirmed numbers, whatever acknowledgement arrives.
 */
module SendWindow {
  import opened Octets
  import opened Apci
  import opened Connection

  /** The unbounded counter, at most one modulus ahead of `base`, that a 15 bit number stands for. */
  function Resolve(base: nat, number: SeqNo): (n: nat)
    ensures base <= n < base + SEQ_MODULUS && Wrap(n) == number
  {
    var n := base + SeqNoCount(Wrap(base), number);
    WrapShift(base, n - base);
    n
  }

  lemma ResolveIsUnique(base: nat, n: nat)
    requires base <= n < base + SEQ_MODULUS
    ensures Resolve(base, Wrap(n)) == n
  {
    SeqNoCountIsDistance(base, n);
  }

  lemma WrapInjective(base: nat, i: nat, j: nat)
    requires base <= i < base + SEQ_MODULUS && base <= j < base + SEQ_MODULUS && Wrap(i) == Wrap(j)
    ensures i == j
  {
    ResolveIsUnique(base, i);
    ResolveIsUnique(base, j);
  }

  lemma WrapOfWrap(a: nat, n: nat)
    ensures Wrap(Wrap(a) + n) == Wrap(a + n)
  {
  }

  /** d's send counters stand for the unbounded window [acked, sent). */
  predicate SendsWindow(d: State, acked: nat, sent: nat) {
    && acked <= sent < acked + SEQ_MODULUS
    && d.ackNoSend == Wrap(acked) && d.seqNoSend == Wrap(sent)
    && d.pending == Window(Wrap(acked), sent - acked)
  }

  lemma WindowAt(first: nat, n: nat, i: nat)
    requires i < n
    ensures Window(Wrap(first), n)[i] == Wrap(first + i)
  {
    WrapOfWrap(first, i);
  }

  lemma WindowDrop(first: nat, n: nat, i: nat)
    requires i <= n
    ensures Window(Wrap(first), n)[i..] == Window(Wrap(first + i), n - i)
  {
    var s, t := Window(Wrap(first), n), Window(Wrap(first + i), n - i);
    forall j | 0 <= j < n - i ensures s[i + j] == t[j] {
      WindowAt(first, n, i + j);
      WindowAt(first + i, n - i, j);
    }
    assert s[i..] == t;
  }

  lemma WindowPosition(first: nat, n: nat, i: nat)
    requires i < n < SEQ_MODULUS
    ensures Position(Window(Wrap(first), n), Wrap(first + i)) == Some(i)
  {
    var s := Window(Wrap(first), n);
    WindowAt(first, n, i);
    forall j | 0 <= j < i ensures s[j] != s[i] {
      WindowAt(first, n, j);
      if s[j] == s[i] { WrapInjective(first, first + i, first + j); }
    }
    assert forall x :: x in s[..i] ==> x != s[i];
    PositionIsFirst(s, Wrap(first + i), i);
  }

  lemma PredecessorWraps(n: nat)
    requires n > 0
    ensures Predecessor(Wrap(n)) == Wrap(n - 1)
  {
    WrapShift(n - 1, 1);
  }

  /**
   `update_ack_no_out` refines the unbounded window: of the 32768 counters an acknowledgement can
   stand for, it accepts exactly those inside the window and drops exactly the acknowledged prefix.
   */
  lemma UpdateAckRefinesWindow(d: State, acked: nat, sent: nat, n: nat)
    requires SendsWindow(d, acked, sent)
    requires acked <= n < acked + SEQ_MODULUS
    ensures UpdateAck(d, Wrap(n)).Some? <==> n <= sent
    ensures n <= sent ==>
      && SendsWindow(UpdateAck(d, Wrap(n)).value, n, sent)
      && UpdateAck(d, Wrap(n)).value == d.(ackNoSend := Wrap(n), pending := d.pending[n - acked..])
  {
    SeqNoCountIsDistance(acked, sent);
    if n == acked {
      assert d.pending[0..] == d.pending;
    } else {
      if Wrap(n) == Wrap(acked) { WrapInjective(acked, acked, n); }
      if n <= sent {
        SeqNoCountIsDistance(n, sent);
        DropAcknowledged(acked, sent, n);
      } else {
        AheadOfWindow(acked, sent, n);
      }
    }
  }

  lemma DropAcknowledged(acked: nat, sent: nat, n: nat)
    requires acked < n <= sent < acked + SEQ_MODULUS
    ensures var pending := Window(Wrap(acked), sent - acked);
      DropThrough(pending, Predecessor(Wrap(n))) == pending[n - acked..] == Window(Wrap(n), sent - n)
  {
    PredecessorWraps(n);
    WindowPosition(acked, sent - acked, n - 1 - acked);
    WindowDrop(acked, sent - acked, n - acked);
  }

  lemma AheadOfWindow(acked: nat, sent: nat, n: nat)
    requires acked <= sent < n < acked + SEQ_MODULUS
    ensures SeqNoCount(Wrap(acked), Wrap(sent)) < SeqNoCount(Wrap(n), Wrap(sent))
  {
    SeqNoCountIsDistance(acked, sent);
    assert Wrap(sent + SEQ_MODULUS) == Wrap(sent);
    SeqNoCountIsDistance(n, sent + SEQ_MODULUS);
  }

  /** A valid driver's counters stand for some unbounded window. */
  lemma WindowOf(c: Config, d: State)
    requires Valid(c, d)
    ensures SendsWindow(d, d.ackNoSend, d.ackNoSend + InFlight(d))
  {
    ResolveIsUnique(d.ackNoSend, Resolve(d.ackNoSend, d.seqNoSend));
  }

  lemma UpdateAckKeepsValid(c: Config, d: State, ackNo: SeqNo)
    requires Valid(c, d) && UpdateAck(d, ackNo).Some?
    ensures Valid(c, UpdateAck(d, ackNo).value)
  {
    var acked, sent := d.ackNoSend, d.ackNoSend + InFlight(d);
    WindowOf(c, d);
    var n := Resolve(acked, ackNo);
    UpdateAckRefinesWindow(d, acked, sent, n);
    SeqNoCountIsDistance(n, sent);
  }

  /** In the numbers themselves: accepted exactly inside the window, dropping exactly what is acknowledged. */
  lemma AckInWindow(c: Config, d: State, ackNo: SeqNo)
    requires Valid(c, d)
    ensures var n := SeqNoCount(d.ackNoSend, ackNo);
      && (UpdateAck(d, ackNo).Some? <==> n <= InFlight(d))
      && (n <= InFlight(d) ==>
            UpdateAck(d, ackNo).value == d.(ackNoSend := ackNo, pending := d.pending[n..]) && Valid(c, UpdateAck(d, ackNo).value))
  {
    var acked, sent := d.ackNoSend, d.ackNoSend + InFlight(d);
    WindowOf(c, d);
    var n := Resolve(acked, ackNo);
    SeqNoCountIsDistance(acked, n);
    UpdateAckRefinesWindow(d, acked, sent, n);
    if n <= sent { UpdateAckKeepsValid(c, d, ackNo); }
  }

  lemma TransmitKeepsValid(c: Config, d: State, asdu: seq<byte>)
    requires Valid(c, d) && MaySend(c, d)
    ensures Valid(c, Transmit(c, d, asdu).d)
  {
    if |asdu| <= ASDU_SIZE_MAX {
      var acked, n := d.ackNoSend, InFlight(d);
      WindowOf(c, d);
      WrapOfWrap(acked + n, 1);
      SeqNoCountIsDistance(acked, acked + n + 1);
      var s := Window(acked, n + 1);
      assert s[n] == d.seqNoSend;
      assert d.pending + [d.seqNoSend] == s;
    }
  }

  lemma InformationKeepsValid(c: Config, d: State, sendSn: SeqNo, recvSn: SeqNo, asdu: seq<byte>)
    requires Valid(c, d)
    ensures Valid(c, OnInformation(c, d, sendSn, recvSn, asdu).d)
  {
    var e := OnInformation(c, d, sendSn, recvSn, asdu);
    if UpdateAck(d, recvSn).Some? {
      UpdateAckKeepsValid(c, d, recvSn);
      SameWindow(c, if e.accepted == [] && !d.active && d.role.Controlled? then d else UpdateAck(d, recvSn).value, e.d);
    } else {
      SameWindow(c, d, e.d);
    }
  }

  lemma SameWindow(c: Config, d: State, d': State)
    requires Valid(c, d)
    requires d'.pending == d.pending && d'.ackNoSend == d.ackNoSend && d'.seqNoSend == d.seqNoSend
    requires Unacknowledged(d') < c.w
    ensures Valid(c, d')
  {
  }

  lemma SupervisoryKeepsValid(c: Config, d: State, recvSn: SeqNo)
    requires Valid(c, d)
    ensures Valid(c, OnSupervisory(d, recvSn).d)
  {
    if UpdateAck(d, recvSn).Some? { UpdateAckKeepsValid(c, d, recvSn); }
  }

  lemma UnnumberedKeepsValid(c: Config, d: State, f: UFunction)
    requires Valid(c, d)
    ensures Valid(c, OnUnnumbered(d, f).d)
  {
  }

  lemma ReleaseKeepsValid(c: Config, e: Effect)
    requires Valid(c, e.d)
    ensures Valid(c, ReleaseStopCon(e).d)
  {
  }

  lemma ApduKeepsValid(c: Config, d: State, a: Apdu)
    requires Valid(c, d)
    ensures Valid(c, OnApdu(c, d, a).d)
  {
    match a
    case I(s, r, asdu) =>
      InformationKeepsValid(c, d, s, r, asdu);
      ReleaseKeepsValid(c, OnInformation(c, d, s, r, asdu));
    case S(r) =>
      SupervisoryKeepsValid(c, d, r);
      ReleaseKeepsValid(c, OnSupervisory(d, r));
    case U(f) =>
      UnnumberedKeepsValid(c, d, f);
      ReleaseKeepsValid(c, OnUnnumbered(d, f));
  }

  // ---- data leaves only through Transmit ----

  predicate IsData(a: Apdu) { a.I? }

  predicate NoData(out: seq<Apdu>) {
    forall i :: 0 <= i < |out| ==> !IsData(out[i])
  }

  /** Receiving produces no I-frame: data leaves only through Transmit. */
  lemma ReceivingSendsNoData(c: Config, d: State, a: Apdu)
    ensures NoData(OnApdu(c, d, a).out)
    ensures OnApdu(c, d, a).d.role == d.role
  {
    match a
    case I(s, r, asdu) =>
      var e := OnInformation(c, d, s, r, asdu);
      assert NoData(e.out) && e.d.role == d.role;
    case S(r) =>
      var e := OnSupervisory(d, r);
      assert NoData(e.out) && e.d.role == d.role;
    case U(f) =>
      var e := OnUnnumbered(d, f);
      assert NoData(e.out) && e.d.role == d.role;
  }
}
