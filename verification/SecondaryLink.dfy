/**
 The secondary as the program keeps it (src/cs101/server.rs): the buffers shared with the
 application, and a SecondaryState whose methods are proved against SecondaryStation.
 */
module SecondaryLink {
  import opened Octets
  import opened Ft12
  import PS = PrimaryStation
  import opened SecondaryStation
  import PrimaryLink

  class Shared {
    var class1: seq<PS.Asdu>
    var class2: seq<PS.Asdu>
    var primQueue: seq<PS.Asdu>
    var connected: bool
    const c: Config

    function View(): Buffers
      reads this
    {
      Buffers(class1, class2, primQueue)
    }

    constructor (config: Config)
      ensures c == config && View() == EMPTY_BUFFERS && !connected
    {
      c := config;
      class1, class2, primQueue, connected := [], [], [], false;
    }

    /** The application's `send`: refused without a connection, and when the message's buffer is full. */
    method Send(m: Message) returns (r: Result<()>)
      modifies this`class1, this`class2, this`primQueue
      ensures r == (if !connected then Err(UseClosedConnection)
                    else if Accept(c, old(View()), m).None? then Err(SendQueueFull)
                    else Ok(()))
      ensures View() == if r.Ok? then Accept(c, old(View()), m).value else old(View())
    {
      if !connected {
        return Err(UseClosedConnection);
      }
      var q := if c.balanced then primQueue else if m.class2 then class2 else class1;
      if |q| >= c.maxQueue {
        return Err(SendQueueFull);
      }
      q := q + [m.asdu];
      if c.balanced {
        primQueue := q;
      } else if m.class2 {
        class2 := q;
      } else {
        class1 := q;
      }
      return Ok(());
    }

    method TakeClass(class2First: bool) returns (r: Option<Popped>)
      modifies this
      ensures (r, View()) == PopClass(old(View()), class2First)
    {
      if class2First && class2 != [] {
        r := Some(Popped(class2[0], true));
        class2 := class2[1..];
      } else if class1 != [] {
        r := Some(Popped(class1[0], false));
        class1 := class1[1..];
      } else if class2 != [] {
        r := Some(Popped(class2[0], true));
        class2 := class2[1..];
      } else {
        r := None;
      }
    }
  }

  class SecondaryState {
    var fcbExpected: bool
    var lastResp: Option<Frame>
    var out: seq<seq<byte>>
    var primOut: Option<Frame>
    var primOutCtrl: ControlField
    var primFcb: bool
    var primActive: bool
    var primRetry: nat
    const linkAddr: LinkAddr
    const c: Config
    const shared: Shared

    function View(): Secondary
      reads this
    {
      Secondary(linkAddr, fcbExpected, lastResp, primOut, primOutCtrl, primFcb, primActive, primRetry)
    }

    predicate Sendable(f: Option<Frame>) { f.Some? ==> Marshal(f.value, c.addrSize).Ok? }

    /**
     What every method keeps: what is cached or outstanding can be sent again, the control field kept
     beside the outstanding frame is its own, and it has not been repeated more often than configured.
     */
    predicate Valid()
      reads this
    {
      && c.Valid() && shared.c == c && Sendable(lastResp) && Sendable(primOut)
      && (primOut.Some? ==> !primOut.value.SingleCharAck? && primOutCtrl == primOut.value.control)
      && primRetry <= (if primOut.Some? then c.maxRepetitions else 0)
    }

    constructor (config: Config, addr: LinkAddr, buffers: Shared)
      requires config.Valid() && buffers.c == config
      ensures Valid() && View() == Initial(addr) && out == [] && shared == buffers && c == config
    {
      c, linkAddr, shared := config, addr, buffers;
      fcbExpected, lastResp, out := true, None, [];
      primOut, primOutCtrl, primFcb, primActive, primRetry := None, NO_CONTROL, false, false, 0;
    }

    /** Frames written since the channel held `before`. */
    predicate Wrote(before: seq<seq<byte>>, frames: seq<Frame>)
      reads this
    {
      out == before + PrimaryLink.Written(frames, c.addrSize)
    }

    method Write(frame: Frame) returns (ok: bool)
      modifies this`out
      ensures ok == Marshal(frame, c.addrSize).Ok?
      ensures Wrote(old(out), if ok then [frame] else [])
    {
      var raw := MarshalFrame(frame, c.addrSize);
      match raw
      case Err(_) => ok := false;
      case Ok(b) =>
        out := out + [b];
        ok := true;
    }

    method SendResp(frame: Frame)
      requires Valid() && Sendable(Some(frame))
      modifies this`lastResp, this`out
      ensures Valid() && Wrote(old(out), [frame]) && View() == old(View()).(lastResp := Some(frame))
    {
      lastResp := Some(frame);
      var _ := Write(frame);
    }

    method SendLinkAck()
      requires Valid()
      modifies this`lastResp, this`out
      ensures Valid()
      ensures var f := LinkAck(c, old(View()), shared.View());
        Wrote(old(out), [f]) && View() == old(View()).(lastResp := Some(f))
    {
      SendResp(AckFrame(c, View(), CONF_ACK, shared.class1 != []));
    }

    method SendLinkStatus()
      requires Valid()
      modifies this`lastResp, this`out
      ensures Valid()
      ensures var f := SecFrame(old(View()), RESP_STATUS, shared.class1 != []);
        Wrote(old(out), [f]) && View() == old(View()).(lastResp := Some(f))
    {
      SendResp(SecFrame(View(), RESP_STATUS, shared.class1 != []));
    }

    method RespondClassData(class2: bool)
      requires Valid()
      modifies this`lastResp, this`out, shared
      ensures Valid()
      ensures var (f, b') := ClassResponse(c, old(View()), old(shared.View()), class2);
        Wrote(old(out), [f]) && View() == old(View()).(lastResp := Some(f)) && shared.View() == b'
    {
      var popped := shared.TakeClass(class2);
      match popped
      case None => SendResp(AckFrame(c, View(), USER_DATA_NO_REP, false));
      case Some(m) =>
        match m.asdu
        case Unencodable => SendResp(SecFrame(View(), USER_DATA_NO_REP, shared.class1 != []));
        case Encodable(raw) =>
          SendResp(Variable(SecondaryField(RESP_USER_DATA, shared.class1 != [], false), linkAddr, raw));
    }

    method AddressedToUs(addr: LinkAddr) returns (r: bool)
      ensures r <==> !(addr != linkAddr && Broadcast(c) != Some(addr) && Broadcast(c).Some?)
    {
      var broadcast := Broadcast(c);
      if broadcast.None? {
        return true;
      }
      return addr == linkAddr || addr == broadcast.value;
    }

    method HandleFrame(f: Frame) returns (asdu: Option<seq<byte>>, becameActive: bool)
      requires Valid()
      modifies this, shared
      ensures Valid()
      ensures var o := SecondaryStation.HandleFrame(c, old(View()), old(shared.View()), f);
        View() == o.s && shared.View() == o.b && Wrote(old(out), o.out) && asdu == o.asdu && becameActive == o.becameActive
    {
      asdu, becameActive := None, false;
      if f.SingleCharAck? {
        if c.balanced { PrimConfirm(); }
        return;
      }
      var mine := AddressedToUs(f.linkAddr);
      if c.addrSize > 0 && !mine {
        return;
      }
      if !f.control.prm {
        if c.balanced { HandlePeerSecondaryFrame(f.control); }
        return;
      }
      if Broadcast(c) == Some(f.linkAddr) {
        if f.control.fun == USER_DATA_NO_CONF {
          asdu := UserData(f);
        }
        return;
      }
      asdu, becameActive := HandlePrimaryFrame(f);
    }

    /** Duplicate detection: a repeated frame is answered from the cache and not acted on. */
    method HandlePrimaryFrame(f: Frame) returns (asdu: Option<seq<byte>>, becameActive: bool)
      requires Valid() && !f.SingleCharAck?
      modifies this, shared
      ensures Valid()
      ensures var o := OnPrimary(c, old(View()), old(shared.View()), f);
        View() == o.s && shared.View() == o.b && Wrote(old(out), o.out) && asdu == o.asdu && becameActive == o.becameActive
    {
      asdu, becameActive := None, false;
      var ctrl := f.control;
      if FcvRequired(ctrl.fun).Some? && FcvRequired(ctrl.fun).value != ctrl.fcv {
        return;
      }
      if ctrl.fcv {
        if ctrl.fcb != fcbExpected {
          AnswerRepeat();
          return;
        }
        fcbExpected := !fcbExpected;
      }
      asdu, becameActive := ServeFrame(f);
    }

    /** A repeated frame is answered as before, or acknowledged if nothing was answered yet. */
    method AnswerRepeat()
      requires Valid()
      modifies this`lastResp, this`out
      ensures Valid()
      ensures match old(lastResp)
              case Some(resp) => Wrote(old(out), [resp]) && View() == old(View())
              case None =>
                var f := LinkAck(c, old(View()), shared.View());
                Wrote(old(out), [f]) && View() == old(View()).(lastResp := Some(f))
    {
      match lastResp {
        case Some(resp) => var _ := Write(resp);
        case None => SendLinkAck();
      }
    }

    method ServeFrame(f: Frame) returns (asdu: Option<seq<byte>>, becameActive: bool)
      requires Valid() && !f.SingleCharAck?
      modifies this, shared
      ensures Valid()
      ensures var o := Serve(c, old(View()), old(shared.View()), f);
        View() == o.s && shared.View() == o.b && Wrote(old(out), o.out) && asdu == o.asdu && becameActive == o.becameActive
    {
      asdu, becameActive := None, false;
      var fun := f.control.fun;
      if fun == RESET_LINK {
        fcbExpected := true;
        lastResp := None;
        SendLinkAck();
        becameActive := true;
      } else if fun == RESET_USER || fun == TEST_LINK {
        SendLinkAck();
      } else if fun == USER_DATA_CONF {
        asdu := UserData(f);
        SendLinkAck();
      } else if fun == USER_DATA_NO_CONF {
        asdu := UserData(f);
      } else if fun == REQ_ACCESS || fun == REQ_STATUS {
        SendLinkStatus();
      } else if fun == REQ_DATA1 {
        RespondClassData(false);
      } else if fun == REQ_DATA2 {
        RespondClassData(true);
      } else {
        SendResp(SecFrame(View(), RESP_LINK_NI, false));
      }
    }

    // ---- the balanced-mode primary role ----

    method PrimConfirm()
      requires Valid()
      modifies this
      ensures Valid() && out == old(out) && View() == SecondaryStation.PrimConfirm(old(View()))
    {
      if primOut.None? {
        return;
      }
      if primOutCtrl.fcv {
        primFcb := !primOutCtrl.fcb;
      }
      if primOutCtrl.fun == RESET_LINK {
        primActive := true;
        primFcb := true;
      }
      primOut := None;
      primRetry := 0;
    }

    method HandlePeerSecondaryFrame(ctrl: ControlField)
      requires Valid()
      modifies this
      ensures Valid() && out == old(out) && View() == OnPeerSecondary(old(View()), ctrl)
    {
      if ctrl.fun == CONF_ACK || ctrl.fun == RESP_STATUS {
        PrimConfirm();
      } else if ctrl.fun == RESP_LINK_NF || ctrl.fun == RESP_LINK_NI {
        primOut := None;
        primRetry := 0;
        primActive := false;
      }
    }

    method PrimSendConfirmed(f: Frame)
      requires Valid() && !f.SingleCharAck? && Sendable(Some(f))
      modifies this
      ensures Valid() && Wrote(old(out), [f]) && View() == PrimSend(old(View()), f)
    {
      var ok := Write(f);
      if !ok {
        return;
      }
      primOut := Some(f);
      primOutCtrl := f.control;
      primRetry := 0;
    }

    /** Supervise the primary role; the flags are the comparisons with its two deadlines. */
    method PrimTick(overdue: bool, initDue: bool)
      requires Valid()
      modifies this, shared
      ensures Valid()
      ensures var t := SecondaryStation.PrimTick(c, old(View()), old(shared.View()), overdue, initDue);
        View() == t.s && shared.View() == t.b && Wrote(old(out), t.out)
    {
      if primOut.Some? {
        if overdue {
          if primRetry < c.maxRepetitions {
            primRetry := primRetry + 1;
            var _ := Write(primOut.value);
          } else {
            primOut := None;
            primRetry := 0;
            primActive := false;
          }
        }
        return;
      }
      if !primActive {
        if initDue {
          PrimSendConfirmed(Fixed(PrimaryField(RESET_LINK, false, false, false), linkAddr));
        }
        return;
      }
      PrimSendQueued();
    }

    method PrimSendQueued()
      requires Valid() && primOut.None? && primActive
      modifies this, shared
      ensures Valid()
      ensures var t := SecondaryStation.PrimTick(c, old(View()), old(shared.View()), false, false);
        View() == t.s && shared.View() == t.b && Wrote(old(out), t.out)
    {
      if shared.primQueue == [] {
        return;
      }
      var next := shared.primQueue[0];
      shared.primQueue := shared.primQueue[1..];
      match next
      case Unencodable =>
      case Encodable(raw) =>
        PrimSendConfirmed(Variable(PrimaryField(USER_DATA_CONF, true, primFcb, false), linkAddr, raw));
    }
  }
}
