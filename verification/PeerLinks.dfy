/**
 Both directions of a 104 connection at once: what one driver's turn does to the data it receives,
 the data it sends and the acknowledgements of each.
 */
module PeerLinks {
  import opened Octets
  import opened Apci
  import opened Connection
  import opened SendWindow
  import opened DataFlow

  /** An ASDU the application hands over: `marshal_binary` never produces fewer octets or more. */
  predicate Sendable(asdu: Payload) { 1 <= |asdu| <= ASDU_SIZE_MAX }

  /** The data direction from o to r and the one from r to o, seen from r. */
  ghost predicate Links(o: State, r: State, oTx: seq<Payload>, oRx: seq<Payload>,
                        rTx: seq<Payload>, rRx: seq<Payload>, inb: Channel, outb: Channel)
  {
    Flow(o, r, oTx, rRx, inb, outb) && Flow(r, o, rTx, oRx, outb, inb)
  }

  lemma SupervisoryLinks(o: State, r: State, oTx: seq<Payload>, oRx: seq<Payload>,
                         rTx: seq<Payload>, rRx: seq<Payload>, inb: Channel, outb: Channel)
    requires Links(o, r, oTx, oRx, rTx, rRx, inb, outb)
    requires inb != [] && inb[0].S? && !r.closed
    ensures var e := OnSupervisory(r, inb[0].recvSn);
      && !e.d.closed && e.out == [] && e.accepted == []
      && e.d == r.(ackNoSend := e.d.ackNoSend, pending := e.d.pending)
      && Links(o, e.d, oTx, oRx, rTx, rRx, inb[1..], outb)
  {
    TakeAck(r, o, rTx, oRx, outb, inb);
    var d := UpdateAck(r, inb[0].recvSn).value;
    Quiet(o, r, oTx, rRx, inb, outb, o, d, inb[1..], outb);
  }

  /** The driver after an I-frame it accepts, before the w check. */
  function Accepted(r: State, recvSn: SeqNo): Option<State> {
    match UpdateAck(r, recvSn)
    case None => None
    case Some(d) => Some(d.(seqNoRcv := Wrap(d.seqNoRcv + 1)))
  }

  lemma AcceptLinks(o: State, r: State, oTx: seq<Payload>, oRx: seq<Payload>,
                    rTx: seq<Payload>, rRx: seq<Payload>, inb: Channel, outb: Channel)
    requires Links(o, r, oTx, oRx, rTx, rRx, inb, outb) && Unacknowledged(r) < 32767
    requires inb != [] && inb[0].I?
    ensures inb[0].sendSn == r.seqNoRcv && Accepted(r, inb[0].recvSn).Some?
    ensures Links(o, Accepted(r, inb[0].recvSn).value, oTx, oRx, rTx, rRx + [inb[0].asdu], inb[1..], outb)
  {
    TakeAck(r, o, rTx, oRx, outb, inb);
    var d := UpdateAck(r, inb[0].recvSn).value;
    var d' := d.(seqNoRcv := Wrap(d.seqNoRcv + 1));
    TakeData(o, r, oTx, rRx, inb, outb, d');
    Quiet(d, o, rTx, oRx, outb, inb[1..], d', o, outb, inb[1..]);
  }

  lemma InformationLinks(c: Config, o: State, r: State, oTx: seq<Payload>, oRx: seq<Payload>,
                         rTx: seq<Payload>, rRx: seq<Payload>, inb: Channel, outb: Channel)
    requires Links(o, r, oTx, oRx, rTx, rRx, inb, outb) && c.Valid() && Unacknowledged(r) < c.w
    requires inb != [] && inb[0].I? && !r.closed
    requires r.role.Master? || r.active
    ensures var e := OnInformation(c, r, inb[0].sendSn, inb[0].recvSn, inb[0].asdu);
      && !e.d.closed && e.accepted == [inb[0].asdu]
      && Links(o, e.d, oTx, oRx, rTx, rRx + e.accepted, inb[1..], outb + e.out)
  {
    AcceptLinks(o, r, oTx, oRx, rTx, rRx, inb, outb);
    var d := UpdateAck(r, inb[0].recvSn).value;
    assert OnInformation(c, r, inb[0].sendSn, inb[0].recvSn, inb[0].asdu) == Accept(c, d, inb[0].asdu);
    CountedLinks(c, o, d, oTx, oRx, rTx, rRx + [inb[0].asdu], inb[1..], outb, inb[0].asdu);
  }

  /** Once counted, an I-frame may be acknowledged. */
  lemma CountedLinks(c: Config, o: State, d: State, oTx: seq<Payload>, oRx: seq<Payload>,
                     rTx: seq<Payload>, rRx: seq<Payload>, inb: Channel, outb: Channel, asdu: Payload)
    requires Links(o, d.(seqNoRcv := Wrap(d.seqNoRcv + 1)), oTx, oRx, rTx, rRx, inb, outb)
    ensures var e := Accept(c, d, asdu);
      Links(o, e.d, oTx, oRx, rTx, rRx, inb, outb + e.out)
  {
    var d' := d.(seqNoRcv := Wrap(d.seqNoRcv + 1));
    if Unacknowledged(d') >= c.w {
      AckSent(o, d', d'.(ackNoRcv := d'.seqNoRcv), oTx, oRx, rTx, rRx, inb, outb);
    } else {
      assert outb + [] == outb;
    }
  }

  /** Consuming a U-frame and appending U-frames leaves both directions alone. */
  lemma ControlTaken(o: State, r: State, r': State, oTx: seq<Payload>, oRx: seq<Payload>,
                     rTx: seq<Payload>, rRx: seq<Payload>, inb: Channel, outb: Channel)
    requires Links(o, r, oTx, oRx, rTx, rRx, inb, outb)
    requires inb != [] && inb[0].U?
    requires SameFlow(r, r', r, r')
    ensures Links(o, r', oTx, oRx, rTx, rRx, inb[1..], outb)
  {
    Quiet(o, r, oTx, rRx, inb, outb, o, r', inb[1..], outb);
    Quiet(r, o, rTx, oRx, outb, inb, r', o, outb, inb[1..]);
  }

  lemma ControlSent(o: State, r: State, r': State, oTx: seq<Payload>, oRx: seq<Payload>,
                    rTx: seq<Payload>, rRx: seq<Payload>, inb: Channel, outb: Channel, m: Apdu)
    requires Links(o, r, oTx, oRx, rTx, rRx, inb, outb)
    requires m.U?
    requires SameFlow(r, r', r, r')
    ensures Links(o, r', oTx, oRx, rTx, rRx, inb, outb + [m])
  {
    Quiet(o, r, oTx, rRx, inb, outb, o, r', inb, outb + [m]);
    Quiet(r, o, rTx, oRx, outb, inb, r', o, outb + [m], inb);
  }

  lemma AckSent(o: State, r: State, r': State, oTx: seq<Payload>, oRx: seq<Payload>,
                rTx: seq<Payload>, rRx: seq<Payload>, inb: Channel, outb: Channel)
    requires Links(o, r, oTx, oRx, rTx, rRx, inb, outb)
    requires r'.seqNoRcv == r.seqNoRcv == r'.ackNoRcv
    requires r'.seqNoSend == r.seqNoSend && r'.ackNoSend == r.ackNoSend && r'.pending == r.pending
    ensures Links(o, r', oTx, oRx, rTx, rRx, inb, outb + [S(r.seqNoRcv)])
  {
    SendAck(o, r, oTx, rRx, inb, outb, r', S(r.seqNoRcv));
    Quiet(r, o, rTx, oRx, outb, inb, r', o, outb + [S(r.seqNoRcv)], inb);
  }

  lemma UnnumberedLinks(o: State, r: State, oTx: seq<Payload>, oRx: seq<Payload>,
                        rTx: seq<Payload>, rRx: seq<Payload>, inb: Channel, outb: Channel)
    requires Links(o, r, oTx, oRx, rTx, rRx, inb, outb)
    requires inb != [] && inb[0].U? && !r.closed
    ensures var e := OnUnnumbered(r, inb[0].fun);
      Links(o, e.d, oTx, oRx, rTx, rRx, inb[1..], outb + e.out)
  {
    var f := inb[0].fun;
    var e := OnUnnumbered(r, f);
    if f == StopDtActive && r.role.Controlled? && r.ackNoRcv != r.seqNoRcv {
      ControlTaken(o, r, r, oTx, oRx, rTx, rRx, inb, outb);
      AckSent(o, r, e.d, oTx, oRx, rTx, rRx, inb[1..], outb);
    } else {
      ControlTaken(o, r, e.d, oTx, oRx, rTx, rRx, inb, outb);
      if e.out == [] {
        assert outb + e.out == outb;
      } else {
        ControlSent(o, e.d, e.d, oTx, oRx, rTx, rRx, inb[1..], outb, e.out[0]);
      }
    }
  }

  lemma ReleaseLinks(e: Effect, o: State, oTx: seq<Payload>, oRx: seq<Payload>,
                     rTx: seq<Payload>, rRx: seq<Payload>, inb: Channel, outb: Channel)
    requires Links(o, e.d, oTx, oRx, rTx, rRx, inb, outb + e.out)
    ensures var r := ReleaseStopCon(e); Links(o, r.d, oTx, oRx, rTx, rRx, inb, outb + r.out)
  {
    var r := ReleaseStopCon(e);
    if r != e {
      ControlSent(o, e.d, r.d, oTx, oRx, rTx, rRx, inb, outb + e.out, U(StopDtConfirm));
      assert outb + r.out == outb + e.out + [U(StopDtConfirm)];
    }
  }

  lemma TransmitLinks(c: Config, o: State, r: State, oTx: seq<Payload>, oRx: seq<Payload>,
                      rTx: seq<Payload>, rRx: seq<Payload>, inb: Channel, outb: Channel, asdu: Payload)
    requires Links(o, r, oTx, oRx, rTx, rRx, inb, outb)
    requires c.Valid() && MaySend(c, r) && Sendable(asdu)
    ensures var e := Transmit(c, r, asdu);
      Links(o, e.d, oTx, oRx, rTx + [asdu], rRx, inb, outb + e.out)
  {
    var e := Transmit(c, r, asdu);
    SendData(r, o, rTx, oRx, outb, inb, e.d, e.out[0]);
    SendAck(o, r, oTx, rRx, inb, outb, e.d, e.out[0]);
  }

  lemma TickLinks(o: State, r: State, oTx: seq<Payload>, oRx: seq<Payload>,
                  rTx: seq<Payload>, rRx: seq<Payload>, inb: Channel, outb: Channel, t: Clock)
    requires Links(o, r, oTx, oRx, rTx, rRx, inb, outb)
    requires !t.confirmOverdue && !t.oldestOverdue
    ensures Links(o, Tick(r, t).d, oTx, oRx, rTx, rRx, inb, outb + Tick(r, t).out)
  {
    var e := Tick(r, t);
    var ack := r.ackNoRcv != r.seqNoRcv && t.ackDue;
    var mid := if ack then outb + [S(r.seqNoRcv)] else outb;
    if ack { AckSent(o, r, e.d, oTx, oRx, rTx, rRx, inb, outb); }
    if t.idle {
      ControlSent(o, e.d, e.d, oTx, oRx, rTx, rRx, inb, mid, U(TestFrActive));
    }
    assert outb + e.out == if t.idle then mid + [U(TestFrActive)] else mid;
  }
}
