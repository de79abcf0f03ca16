/**
 The primary as the program keeps it: a LinkState whose methods update the stations, the outstanding
 frame and the queue it shares with the application (src/cs101/client.rs, and its twin
 src/cs103/client.rs where the profile says so). Every method is proved against the functions of
 PrimaryStation.
 */
module PrimaryLink {
  import opened Octets
  import opened Ft12
  import opened Ft12Stream
  import opened PrimaryStation

  /** What a list of frames adds to the output channel. */
  function Written(frames: seq<Frame>, size: nat): seq<seq<byte>> {
    seq(|frames|, i requires 0 <= i < |frames| => Raw(frames[i], size))
  }

  /** The queue shared with the application. */
  class Shared {
    var queue: seq<Outgoing>
    var connected: bool
    const maxQueue: nat

    constructor (limit: nat)
      ensures queue == [] && !connected && maxQueue == limit
    {
      queue, connected, maxQueue := [], false, limit;
    }

    /** The application's `send_to`: refused without a connection, and when the queue is full. */
    method SendTo(asdu: Asdu, addr: LinkAddr) returns (r: Result<()>)
      modifies this`queue
      ensures r == (if !connected then Err(UseClosedConnection)
                    else if |old(queue)| >= maxQueue then Err(SendQueueFull)
                    else Ok(()))
      ensures queue == if r.Ok? then old(queue) + [Outgoing(asdu, addr)] else old(queue)
    {
      if !connected {
        return Err(UseClosedConnection);
      }
      if |queue| >= maxQueue {
        return Err(SendQueueFull);
      }
      queue := queue + [Outgoing(asdu, addr)];
      return Ok(());
    }
  }

  class LinkState {
    var stations: map<LinkAddr, Station>
    var order: seq<LinkAddr>
    var pollIdx: nat
    var lastSent: Option<Pending>
    var retryCount: nat
    var fcbExpected: bool
    var t1Armed: bool
    var out: seq<seq<byte>>
    const c: Settings

    function View(): Primary
      reads this
    {
      Primary(stations, order, pollIdx, lastSent, retryCount, t1Armed, fcbExpected)
    }

    /**
     What every method keeps: t1 runs exactly while a frame is outstanding, that frame can be sent
     again, and it has not been repeated more often than configured.
     */
    predicate Valid()
      reads this
    {
      && c.Valid() && WellFormed(View())
      && (t1Armed <==> lastSent.Some?) && retryCount <= c.maxRepetitions
      && (lastSent.Some? ==> !lastSent.value.frame.SingleCharAck? && Marshal(lastSent.value.frame, c.addrSize).Ok?)
    }

    constructor (settings: Settings, addresses: seq<LinkAddr>)
      requires settings.Valid() && addresses != []
      ensures Valid() && c == settings && View() == Initial(addresses) && out == []
    {
      c := settings;
      order := addresses;
      stations := map a | a in addresses :: Station(Status, false, false, false);
      pollIdx, lastSent, retryCount, fcbExpected, t1Armed, out := 0, None, 0, true, false, [];
    }

    method Write(frame: Frame) returns (ok: bool)
      modifies this`out
      ensures ok == Marshal(frame, c.addrSize).Ok?
      ensures out == if ok then old(out) + Written([frame], c.addrSize) else old(out)
    {
      var raw := MarshalFrame(frame, c.addrSize);
      match raw
      case Err(_) => ok := false;
      case Ok(b) =>
        out := out + [b];
        ok := true;
    }

    method SendPrimConfirmed(addr: LinkAddr, fun: Nibble, fcv: bool)
      requires Valid() && addr in stations
      modifies this
      ensures Valid()
      ensures var t := Request(c, old(View()), addr, fun, fcv);
        View() == t.p && out == old(out) + Written(t.out, c.addrSize)
    {
      var fcb := stations[addr].fcb;
      var ctrl := PrimaryField(fun, fcv, fcb, c.balanced);
      var frame := Fixed(ctrl, addr);
      var ok := Write(frame);
      if !ok {
        return;
      }
      lastSent := Some(Pending(frame, ctrl, addr));
      retryCount := 0;
      t1Armed := true;
    }

    method SendSecFixed(fun: Nibble, addr: LinkAddr)
      requires Valid()
      modifies this`out
      ensures out == old(out) + Written([PeerAck(c, fun, addr)], c.addrSize)
    {
      var frame: Frame;
      if fun == CONF_ACK && c.singleCharAck {
        frame := SingleCharAck;
      } else {
        frame := Fixed(SecondaryField(fun, false, c.balanced), addr);
      }
      var _ := Write(frame);
    }

    method ConfirmPositive(addr: LinkAddr, addrValid: bool) returns (r: Option<Confirmed>)
      requires Valid()
      modifies this
      ensures Valid() && out == old(out)
      ensures (View(), r) == PrimaryStation.ConfirmPositive(c, old(View()), if addrValid then Some(addr) else None)
    {
      var p := lastSent;
      if p.None? {
        return None;
      }
      lastSent := None;
      if addrValid && p.value.addr != addr {
        lastSent := p;
        return None;
      }
      var becameActive: Option<LinkAddr> := None;
      if p.value.addr in stations {
        var s := stations[p.value.addr];
        if p.value.ctrl.fcv {
          s := s.(fcb := !p.value.ctrl.fcb);
        }
        if IsReset(c, p.value.ctrl.fun) {
          s := s.(phase := Active);
          s := s.(fcb := true);
          becameActive := Some(p.value.addr);
        } else if p.value.ctrl.fun == REQ_STATUS {
          if s.phase.Status? {
            s := s.(phase := Reset);
          }
        } else if p.value.ctrl.fun == REQ_DATA1 {
          s := s.(wantClass1 := false);
        }
        stations := stations[p.value.addr := s];
      }
      retryCount := 0;
      t1Armed := false;
      r := Some(Confirmed(p.value.ctrl.fun, becameActive));
    }

    method FailTransaction(addr: LinkAddr)
      requires Valid()
      modifies this
      ensures Valid() && out == old(out)
      ensures View() == PrimaryStation.FailTransaction(old(View()), addr)
    {
      var p := lastSent;
      if p.None? {
        return;
      }
      lastSent := None;
      if p.value.addr != addr {
        lastSent := p;
        return;
      }
      if addr in stations {
        var s := stations[addr];
        stations := stations[addr := s.(phase := Status, wantClass1 := false, busy := false)];
      }
      retryCount := 0;
      t1Armed := false;
    }

    method HandleFrame(frame: Frame) returns (newlyActive: Option<LinkAddr>, deliver: bool)
      requires Valid()
      modifies this
      ensures Valid()
      ensures var r := PrimaryStation.HandleFrame(c, old(View()), frame);
        && View() == r.p && out == old(out) + Written(r.out, c.addrSize)
        && newlyActive == r.newlyActive && deliver == r.deliver
    {
      newlyActive, deliver := None, false;
      if frame.SingleCharAck? {
        var confirmed := ConfirmPositive(0, false);
        if confirmed.Some? {
          newlyActive := confirmed.value.becameActive;
        }
        return;
      }
      if frame.linkAddr !in stations {
        return;
      }
      if frame.control.prm {
        if c.balanced {
          deliver := HandlePeerPrimaryFrame(frame.control, frame.linkAddr);
        }
        return;
      }
      newlyActive, deliver := HandleResponse(frame);
    }

    method HandleResponse(frame: Frame) returns (newlyActive: Option<LinkAddr>, deliver: bool)
      requires Valid() && !frame.SingleCharAck? && frame.linkAddr in stations
      modifies this
      ensures Valid()
      ensures var r := OnResponse(c, old(View()), frame);
        && View() == r.p && out == old(out) + Written(r.out, c.addrSize)
        && newlyActive == r.newlyActive && deliver == r.deliver
    {
      var addr, ctrl := frame.linkAddr, frame.control;
      newlyActive, deliver := None, false;
      stations := stations[addr := stations[addr].(busy := ctrl.dfc)];
      var confirmed := Settle(frame);
      if confirmed.Some? {
        newlyActive := confirmed.value.becameActive;
        deliver := frame.Variable? && ctrl.fun == RESP_USER_DATA
                   && (confirmed.value.fun == REQ_DATA1 || confirmed.value.fun == REQ_DATA2);
      }
      if ctrl.acd && !c.balanced && addr in stations {
        AccessDemand(addr);
      }
    }

    /** What the response does to the outstanding transaction. */
    method Settle(frame: Frame) returns (confirmed: Option<Confirmed>)
      requires Valid() && !frame.SingleCharAck? && frame.linkAddr in stations
      modifies this
      ensures Valid() && out == old(out)
      ensures (View(), confirmed) ==
              match React(frame)
              case Confirms => PrimaryStation.ConfirmPositive(c, old(View()), Some(frame.linkAddr))
              case Fails => (PrimaryStation.FailTransaction(old(View()), frame.linkAddr), None)
              case Ignores => (old(View()), None)
    {
      var addr, fun := frame.linkAddr, frame.control.fun;
      confirmed := None;
      if frame.Fixed? {
        if fun == CONF_ACK || fun == USER_DATA_NO_REP || fun == RESP_STATUS {
          confirmed := ConfirmPositive(addr, true);
        } else if fun == RESP_LINK_NF || fun == RESP_LINK_NI {
          FailTransaction(addr);
        }
      } else if fun == RESP_USER_DATA || fun == RESP_STATUS || fun == USER_DATA_NO_REP {
        confirmed := ConfirmPositive(addr, true);
      }
    }

    /** Class 1 data is waiting: fetch it now if the link just went idle. */
    method AccessDemand(addr: LinkAddr)
      requires Valid() && addr in stations
      modifies this
      ensures Valid()
      ensures var t := NoteDemand(c, old(View()), addr);
        View() == t.p && out == old(out) + Written(t.out, c.addrSize)
    {
      stations := stations[addr := stations[addr].(wantClass1 := true)];
      if stations[addr].phase.Active? && lastSent.None? {
        SendPrimConfirmed(addr, REQ_DATA1, true);
      }
    }

    method HandlePeerPrimaryFrame(ctrl: ControlField, addr: LinkAddr) returns (deliver: bool)
      requires Valid()
      modifies this
      ensures Valid()
      ensures var r := OnPeerPrimary(c, old(View()), ctrl, addr);
        && View() == r.p && out == old(out) + Written(r.out, c.addrSize) && deliver == r.deliver
    {
      if FcvRequired(ctrl.fun).Some? && FcvRequired(ctrl.fun).value != ctrl.fcv {
        return false;
      }
      if ctrl.fcv {
        if ctrl.fcb != fcbExpected {
          SendSecFixed(CONF_ACK, addr);
          return false;
        }
        fcbExpected := !fcbExpected;
      }
      deliver := ServePeer(ctrl.fun, addr);
    }

    method ServePeer(fun: Nibble, addr: LinkAddr) returns (deliver: bool)
      requires Valid()
      modifies this
      ensures Valid()
      ensures var r := PrimaryStation.ServePeer(c, old(View()), fun, addr);
        View() == r.p && out == old(out) + Written(r.out, c.addrSize) && deliver == r.deliver
    {
      if fun == RESET_LINK {
        fcbExpected := true;
        SendSecFixed(CONF_ACK, addr);
      } else if fun == RESET_USER || fun == TEST_LINK {
        SendSecFixed(CONF_ACK, addr);
      } else if fun == USER_DATA_CONF {
        SendSecFixed(CONF_ACK, addr);
        return true;
      } else if fun == USER_DATA_NO_CONF {
        return true;
      } else if fun == REQ_STATUS {
        SendSecFixed(RESP_STATUS, addr);
      } else {
        SendSecFixed(RESP_LINK_NI, addr);
      }
      return false;
    }

    method Tick(shared: Shared)
      requires Valid()
      modifies this, shared`queue
      ensures Valid()
      ensures var t := PrimaryStation.Tick(c, old(View()), old(shared.queue));
        View() == t.p && out == old(out) + Written(t.out, c.addrSize) && shared.queue == t.queue
    {
      if lastSent.Some? {
        return;
      }
      var sent := TrySendQueued(shared);
      if sent {
        return;
      }
      if c.profile.Cs101? {
        PollStations();
      } else {
        PollNext();
      }
    }

    /** The 103 tick serves exactly one device. */
    method PollNext()
      requires Valid() && c.profile.Cs103?
      modifies this
      ensures Valid()
      ensures var t := Poll(c, old(View()), |old(order)|);
        View() == t.p && out == old(out) + Written(t.out, c.addrSize)
    {
      var addr := order[pollIdx];
      pollIdx := (pollIdx + 1) % |order|;
      var fun: Nibble, fcv := REQ_DATA2, true;
      match stations[addr].phase {
        case Status => fun, fcv := REQ_STATUS, false;
        case Reset => fun, fcv := RESET_LINK, false;
        case Active => if stations[addr].wantClass1 { fun := REQ_DATA1; }
      }
      SendPrimConfirmed(addr, fun, fcv);
    }

    /** The polling loop of the tick. */
    method PollStations()
      requires Valid()
      modifies this
      ensures Valid()
      ensures var t := Poll(c, old(View()), |old(order)|);
        View() == t.p && out == old(out) + Written(t.out, c.addrSize)
    {
      var i := 0;
      while i < |order|
        invariant Valid() && 0 <= i <= |order| && order == old(order) && out == old(out)
        invariant Poll(c, View(), |order| - i) == Poll(c, old(View()), |order|)
      {
        var addr := order[pollIdx];
        pollIdx := (pollIdx + 1) % |order|;
        match stations[addr].phase {
          case Status =>
            SendPrimConfirmed(addr, REQ_STATUS, false);
            return;
          case Reset =>
            SendPrimConfirmed(addr, RESET_LINK, false);
            return;
          case Active =>
            if !c.balanced {
              SendPrimConfirmed(addr, if stations[addr].wantClass1 then REQ_DATA1 else REQ_DATA2, true);
              return;
            }
        }
        i := i + 1;
      }
    }

    method TakeSendable(shared: Shared) returns (found: Option<Outgoing>)
      modifies shared`queue
      ensures (found, shared.queue) == Scan(old(shared.queue), stations)
    {
      found := None;
      var q := shared.queue;
      var i := 0;
      assert q[..i] + Scan(q, stations).1 == Scan(q, stations).1 && q[i..] == q;
      while i < |q|
        invariant 0 <= i <= |q| && found == None
        invariant Scan(shared.queue, stations).0 == Scan(q[i..], stations).0
        invariant Scan(shared.queue, stations).1 == q[..i] + Scan(q[i..], stations).1
        decreases |q| - i
      {
        var addr := q[i].addr;
        assert q[i..][0] == q[i] && q[i..][1..] == q[i + 1..];
        if addr !in stations {
          ghost var before := q;
          q := q[..i] + q[i + 1..];
          assert q[i..] == before[i + 1..] && q[..i] == before[..i];
        } else if stations[addr].phase.Active? && !stations[addr].busy {
          found := Some(q[i]);
          q := q[..i] + q[i + 1..];
          shared.queue := q;
          return;
        } else {
          assert q[..i] + [q[i]] == q[..i + 1];
          assert q[..i] + ([q[i]] + Scan(q[i + 1..], stations).1) == q[..i + 1] + Scan(q[i + 1..], stations).1;
          i := i + 1;
        }
      }
      assert q[i..] == [] && q[..i] + [] == q;
      shared.queue := q;
    }

    method TrySendQueued(shared: Shared) returns (sent: bool)
      requires Valid()
      modifies this, shared`queue
      ensures Valid()
      ensures var t := PrimaryStation.TrySendQueued(c, old(View()), old(shared.queue));
        View() == t.p && out == old(out) + Written(t.out, c.addrSize) && shared.queue == t.queue && sent == t.sent
    {
      var next := TakeSendable(shared);
      if next.None? {
        return false;
      }
      ScanFindsEligible(old(shared.queue), stations);
      match next.value.asdu
      case Unencodable => return false;
      case Encodable(raw) =>
        var addr := next.value.addr;
        var ctrl := PrimaryField(USER_DATA_CONF, true, stations[addr].fcb, c.balanced);
        var frame := Variable(ctrl, addr, raw);
        var ok := Write(frame);
        if !ok {
          return false;
        }
        lastSent := Some(Pending(frame, ctrl, addr));
        retryCount := 0;
        t1Armed := true;
        return true;
    }

    /** t1 expired: repeat the frame, or give up on the station; false ends the connection. */
    method OnT1Timeout() returns (goOn: bool)
      requires Valid()
      modifies this
      ensures Valid()
      ensures var (t, fatal) := OnT1(c, old(View()));
        View() == t.p && out == old(out) + Written(t.out, c.addrSize) && goOn == !fatal
    {
      if lastSent.None? {
        t1Armed := false;
        return true;
      }
      var p := lastSent.value;
      if retryCount < c.maxRepetitions {
        retryCount := retryCount + 1;
        var ok := Write(p.frame);
        if !ok {
          return false;
        }
        t1Armed := true;
        return true;
      }
      lastSent := None;
      retryCount := 0;
      t1Armed := false;
      if p.addr in stations {
        stations := stations[p.addr := stations[p.addr].(phase := Status, wantClass1 := false, busy := false)];
      }
      return |order| != 1;
    }

    method FindActive() returns (r: Option<LinkAddr>)
      requires Valid()
      ensures r == FirstActive(order, stations)
    {
      var i := 0;
      while i < |order|
        invariant 0 <= i <= |order|
        invariant FirstActive(order, stations) == FirstActive(order[i..], stations)
      {
        if stations[order[i]].phase.Active? {
          return Some(order[i]);
        }
        i := i + 1;
      }
      return None;
    }

    method OnT3Timeout()
      requires Valid()
      modifies this
      ensures Valid()
      ensures var t := OnT3(c, old(View()));
        View() == t.p && out == old(out) + Written(t.out, c.addrSize)
    {
      if lastSent.Some? {
        return;
      }
      var active := FindActive();
      if active.Some? {
        SendPrimConfirmed(active.value, if c.profile.Cs101? then TEST_LINK else REQ_DATA2, true);
      }
    }

    method HandleLinkRequest(fun: Nibble, addr: LinkAddr)
      requires Valid()
      modifies this
      ensures Valid()
      ensures var t := LinkRequest(c, old(View()), fun, addr);
        View() == t.p && out == old(out) + Written(t.out, c.addrSize)
    {
      if lastSent.Some? || addr !in stations {
        return;
      }
      if IsReset(c, fun) {
        stations := stations[addr := stations[addr].(phase := Reset)];
        SendPrimConfirmed(addr, fun, false);
      } else if fun == REQ_STATUS {
        SendPrimConfirmed(addr, REQ_STATUS, false);
      } else if fun == REQ_DATA2 && stations[addr].phase.Active? && !c.balanced {
        SendPrimConfirmed(addr, REQ_DATA2, true);
      }
    }
  }
}
