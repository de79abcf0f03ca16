/**
 The driver loop of one IEC 60870-5-104 connection as the program keeps it (src/cs104/connection.rs):
 one method per `select!` arm, proved against the functions of Connection. Every arm keeps the window
 invariant.
 */
module ConnectionDriver {
  import opened Octets
  import opened Collecting
  import opened Apci
  import opened Connection
  import opened SendWindow
  import AC = AsduCodec

  /** The octets of a frame the driver writes; an ASDU that is too long never becomes one. */
  function Written(a: Apdu): seq<byte> {
    if a.I? && |a.asdu| > ASDU_SIZE_MAX then [] else Encode(a)
  }

  function AllWritten(out: seq<Apdu>): seq<seq<byte>> {
    seq(|out|, i requires 0 <= i < |out| => Written(out[i]))
  }

  /** The ASDUs among the octets accepted that can be decoded; the others are discarded. */
  function Decoded(params: AC.Params, accepted: seq<seq<byte>>): seq<AC.Asdu> { Collect(accepted, Decoder(params)) }

  function Decoder(params: AC.Params): seq<byte> -> Option<AC.Asdu> {
    raw => match AC.Unmarshal(params, raw) case Ok(a) => Some(a) case Err(_) => None
  }

  /** The search for the last number acknowledged, and the drain up to it. */
  method DrainThrough(pending: seq<SeqNo>, lastAcked: SeqNo) returns (rest: seq<SeqNo>)
    ensures rest == DropThrough(pending, lastAcked)
  {
    var pos := 0;
    while pos < |pending| && pending[pos] != lastAcked
      invariant 0 <= pos <= |pending|
      invariant lastAcked !in pending[..pos]
    {
      pos := pos + 1;
    }
    if pos < |pending| {
      PositionIsFirst(pending, lastAcked, pos);
      return pending[pos + 1..];
    }
    assert pending == pending[..pos];
    return pending;
  }

  /** One connection's driver variables, the outbound frame queue and the dispatch queue. */
  class Driver {
    const cfg: Config
    const role: Role
    const params: AC.Params
    var active: bool
    var stopping: bool
    var stopConPending: bool
    var seqNoSend: SeqNo
    var ackNoSend: SeqNo
    var seqNoRcv: SeqNo
    var ackNoRcv: SeqNo
    var pending: seq<SeqNo>
    var closed: bool
    var txRaw: seq<seq<byte>>
    ghost var out: seq<Apdu>
    ghost var accepted: seq<seq<byte>>
    var delivered: seq<AC.Asdu>

    function View(): State
      reads this
    {
      State(role, active, stopping, stopConPending, seqNoSend, ackNoSend, seqNoRcv, ackNoRcv, pending, closed)
    }

    /**
     The ghost fields record the frames written and the octets accepted: the queue holds the octets
     of those frames, and the application was given what could be decoded of those octets.
     */
    ghost predicate Recorded()
      reads this
    {
      txRaw == AllWritten(out) && delivered == Decoded(params, accepted)
    }

    /** What every turn of the loop keeps: the window invariant, and the delivery. */
    ghost predicate Valid()
      reads this
    {
      Connection.Valid(cfg, View()) && Recorded()
    }

    /** The driver took the transition of `e`: its state, the frames it queued, the ASDUs it passed on. */
    twostate predicate Took(e: Effect)
      reads this
    {
      && View() == e.d
      && out == old(out) + e.out
      && accepted == old(accepted) + e.accepted
    }

    constructor (cfg: Config, role: Role, params: AC.Params)
      requires cfg.Valid()
      ensures Valid() && this.cfg == cfg && this.params == params && View() == Initial(role)
      ensures out == [] && accepted == []
    {
      this.cfg, this.role, this.params := cfg, role, params;
      active, stopping, stopConPending, closed := false, false, false, false;
      seqNoSend, ackNoSend, seqNoRcv, ackNoRcv := 0, 0, 0, 0;
      pending, txRaw, delivered := [], [], [];
      out, accepted := [], [];
    }

    method Write(a: Apdu)
      requires Recorded() && !a.I?
      modifies this`txRaw, this`out
      ensures Recorded() && out == old(out) + [a]
    {
      txRaw, out := txRaw + [Encode(a)], out + [a];
    }

    method UpdateAckNoOut(ackNo: SeqNo) returns (ok: bool)
      modifies this`ackNoSend, this`pending
      ensures ok == UpdateAck(old(View()), ackNo).Some?
      ensures View() == if ok then UpdateAck(old(View()), ackNo).value else old(View())
    {
      if ackNo == ackNoSend {
        return true;
      }
      if SeqNoCount(ackNoSend, seqNoSend) < SeqNoCount(ackNo, seqNoSend) {
        return false;
      }
      ghost var before := View();
      var lastAcked := Predecessor(ackNo);
      pending := DrainThrough(pending, lastAcked);
      ackNoSend := ackNo;
      assert View() == before.(ackNoSend := ackNo, pending := DropThrough(before.pending, lastAcked));
      return true;
    }

    method TransmitAsdu(asdu: seq<byte>)
      requires Valid() && MaySend(cfg, View())
      modifies this
      ensures Valid() && Took(Transmit(cfg, old(View()), asdu))
    {
      ghost var next := Transmit(cfg, View(), asdu).d;
      TransmitKeepsValid(cfg, View(), asdu);
      var frame := NewIFrame(seqNoSend, seqNoRcv, asdu);
      if frame.Err? {
        return;
      }
      WriteData(frame.value, I(seqNoSend, seqNoRcv, asdu));
      ackNoRcv := seqNoRcv;
      pending := pending + [seqNoSend];
      seqNoSend := (seqNoSend + 1) % SEQ_MODULUS;
      assert View() == next;
    }

    method WriteData(frame: seq<byte>, ghost a: Apdu)
      requires Recorded() && a.I? && |a.asdu| <= ASDU_SIZE_MAX && frame == Encode(a)
      modifies this`txRaw, this`out
      ensures Recorded() && out == old(out) + [a]
    {
      txRaw, out := txRaw + [frame], out + [a];
    }

    method ControlRequest(ctrl: Ctrl)
      requires Valid()
      modifies this
      ensures Valid() && Took(Control(old(View()), ctrl))
    {
      var func;
      match ctrl {
        case StartDt =>
          stopping := false;
          func := StartDtActive;
        case StopDt =>
          stopping := true;
          func := StopDtActive;
      }
      Write(U(func));
    }

    /** Whatever octets arrive, the window invariant holds afterwards. */
    method ReceiveFrame(frame: seq<byte>)
      requires Valid() && !closed
      modifies this
      ensures Valid() && Took(Receive(cfg, old(View()), frame))
    {
      var apci := Parse(frame);
      if apci.Err? {
        return;
      }
      ApduKeepsValid(cfg, View(), apci.value);
      HandleApdu(apci.value);
    }

    method HandleApdu(a: Apdu)
      requires !closed && Recorded()
      modifies this
      ensures Recorded() && Took(OnApdu(cfg, old(View()), a))
    {
      match a {
        case S(recvSn) =>
          SupervisoryFrame(recvSn);
          if closed {
            return;
          }
        case I(sendSn, recvSn, asdu) =>
          InformationFrame(sendSn, recvSn, asdu);
          if closed {
            return;
          }
        case U(func) =>
          UnnumberedFrame(func);
      }
      ReleaseStop();
    }

    method SupervisoryFrame(recvSn: SeqNo)
      requires !closed && Recorded()
      modifies this
      ensures Recorded() && Took(OnSupervisory(old(View()), recvSn))
    {
      var inWindow := UpdateAckNoOut(recvSn);
      if !inWindow {
        closed := true;
      }
    }

    /** STOPDT con goes out once nothing this station sent is unacknowledged. */
    method ReleaseStop()
      requires !closed && Recorded()
      modifies this
      ensures Recorded()
      ensures Took(ReleaseStopCon(Effect(old(View()), [], [])))
    {
      if stopConPending && ackNoSend == seqNoSend {
        stopConPending := false;
        Write(U(StopDtConfirm));
      }
    }

    method InformationFrame(sendSn: SeqNo, recvSn: SeqNo, asdu: seq<byte>)
      requires !closed && Recorded()
      modifies this
      ensures Recorded() && Took(OnInformation(cfg, old(View()), sendSn, recvSn, asdu))
    {
      if !active && role == Controlled {
        closed := true;
        return;
      }
      var inWindow := UpdateAckNoOut(recvSn);
      if !inWindow || sendSn != seqNoRcv {
        closed := true;
        return;
      }
      AcceptAsdu(asdu);
    }

    method AcceptAsdu(asdu: seq<byte>)
      requires Recorded()
      modifies this
      ensures Recorded() && Took(Accept(cfg, old(View()), asdu))
    {
      Deliver(asdu);
      seqNoRcv := (seqNoRcv + 1) % SEQ_MODULUS;
      if SeqNoCount(ackNoRcv, seqNoRcv) >= cfg.w {
        Write(S(seqNoRcv));
        ackNoRcv := seqNoRcv;
      }
    }

    /** An ASDU goes on to the application if it can be decoded; otherwise it is discarded. */
    method Deliver(asdu: seq<byte>)
      requires Recorded()
      modifies this`accepted, this`delivered
      ensures Recorded() && accepted == old(accepted) + [asdu]
    {
      CollectAppend(accepted, asdu, Decoder(params));
      accepted := accepted + [asdu];
      var pack := AC.UnmarshalBinary(params, asdu);
      if pack.Ok? {
        delivered := delivered + [pack.value];
      }
    }

    method UnnumberedFrame(func: UFunction)
      requires !closed && Recorded()
      modifies this
      ensures Recorded() && Took(OnUnnumbered(old(View()), func))
    {
      if func == StartDtActive && role == Controlled {
        stopConPending := false;
        Write(U(StartDtConfirm));
        active := true;
      } else if func == StopDtActive && role == Controlled {
        active := false;
        if ackNoRcv != seqNoRcv {
          Write(S(seqNoRcv));
          ackNoRcv := seqNoRcv;
        }
        stopConPending := true;
      } else if func == StartDtConfirm && role == Master {
        active := true;
      } else if func == StopDtConfirm && role == Master {
        active := false;
        stopping := false;
      } else if func == TestFrActive {
        Write(U(TestFrConfirm));
      }
    }

    method TickerFired(t: Clock)
      requires Valid()
      modifies this
      ensures Valid() && Took(Tick(old(View()), t))
    {
      if t.confirmOverdue {
        closed := true;
        return;
      }
      if ackNoSend != seqNoSend && |pending| > 0 && t.oldestOverdue {
        closed := true;
        return;
      }
      if ackNoRcv != seqNoRcv && t.ackDue {
        Write(S(seqNoRcv));
        ackNoRcv := seqNoRcv;
      }
      if t.idle {
        Write(U(TestFrActive));
      }
    }
  }
}
