/**
 The primary station's link procedure, as values: the specification both primaries follow, that of
 IEC 60870-5-101 (src/cs101/client.rs) and its twin of IEC 60870-5-103 (src/cs103/client.rs).

 The two differ in the keep-alive they send, in the manual requests they take and in that only the
 101 primary knows the balanced mode. Time is abstract: `t1Armed` says whether t1 is running, and an
 expiry is a call.
 */
module PrimaryStation {
  import opened Octets
  import opened Ft12

  datatype Profile = Cs101 | Cs103

  datatype Settings = Settings(
    profile: Profile,
    addrSize: nat,
    maxRepetitions: nat,
    balanced: bool,
    singleCharAck: bool,
    defaultAddr: LinkAddr)
  {
    predicate Valid() { 1 <= addrSize <= 2 && (profile.Cs103? ==> !balanced && addrSize == 1) }
  }

  datatype Phase = Status | Reset | Active

  datatype Station = Station(phase: Phase, fcb: bool, wantClass1: bool, busy: bool)

  datatype Pending = Pending(frame: Frame, ctrl: ControlField, addr: LinkAddr)

  /** What `marshal_binary` can produce: it refuses anything longer than an ASDU may be. */
  type AsduOctets = s: seq<byte> | |s| <= 249

  /** An application message: the octets `marshal_binary` gives for it, if it gives any. */
  datatype Asdu = Encodable(octets: AsduOctets) | Unencodable

  datatype Outgoing = Outgoing(asdu: Asdu, addr: LinkAddr)

  datatype Primary = Primary(
    stations: map<LinkAddr, Station>,
    order: seq<LinkAddr>,
    pollIdx: nat,
    lastSent: Option<Pending>,
    retryCount: nat,
    t1Armed: bool,
    fcbExpected: bool)        // balanced mode: the bit expected on the peer's next counted frame

  predicate WellFormed(p: Primary) {
    && |p.order| > 0 && p.pollIdx < |p.order|
    && (forall i :: 0 <= i < |p.order| ==> p.order[i] in p.stations)
    && (p.lastSent.Some? ==> p.lastSent.value.addr in p.stations)
  }

  function Initial(order: seq<LinkAddr>): Primary {
    Primary(map a | a in order :: Station(Status, false, false, false), order, 0, None, 0, false, true)
  }

  /** The new state and the frames written. */
  datatype Turn = Turn(p: Primary, out: seq<Frame>)

  /** Write a frame that expects a response, and arm t1. */
  function Send(p: Primary, frame: Frame, addr: LinkAddr): Turn
    requires !frame.SingleCharAck?
  {
    Turn(p.(lastSent := Some(Pending(frame, frame.control, addr)), retryCount := 0, t1Armed := true), [frame])
  }

  function Request(c: Settings, p: Primary, addr: LinkAddr, fun: Nibble, fcv: bool): Turn
    requires addr in p.stations
  {
    Send(p, Fixed(PrimaryField(fun, fcv, p.stations[addr].fcb, c.balanced), addr), addr)
  }

  // ---- responses ----

  datatype Confirmed = Confirmed(fun: Nibble, becameActive: Option<LinkAddr>)

  predicate IsReset(c: Settings, fun: Nibble) {
    fun == RESET_LINK || (c.profile.Cs103? && fun == RESET_FCB)
  }

  function ConfirmStation(c: Settings, s: Station, ctrl: ControlField): Station {
    var s' := if ctrl.fcv then s.(fcb := !ctrl.fcb) else s;
    if IsReset(c, ctrl.fun) then s'.(phase := Active, fcb := true)
    else if ctrl.fun == REQ_STATUS && s'.phase.Status? then s'.(phase := Reset)
    else if ctrl.fun == REQ_DATA1 then s'.(wantClass1 := false)
    else s'
  }

  /** Complete the outstanding transaction. A single character carries no address to compare. */
  function ConfirmPositive(c: Settings, p: Primary, addr: Option<LinkAddr>): (Primary, Option<Confirmed>)
  {
    match p.lastSent
    case None => (p, None)
    case Some(o) =>
      if addr.Some? && o.addr != addr.value then (p, None)
      else
        var p' := p.(lastSent := None, retryCount := 0, t1Armed := false);
        (if o.addr in p.stations
         then p'.(stations := p.stations[o.addr := ConfirmStation(c, p.stations[o.addr], o.ctrl)])
         else p',
         Some(Confirmed(o.ctrl.fun, if IsReset(c, o.ctrl.fun) && o.addr in p.stations then Some(o.addr) else None)))
  }

  function Restart(s: Station): Station { s.(phase := Status, wantClass1 := false, busy := false) }

  /** Abort the transaction with `addr` and start that station's initialization over. */
  function FailTransaction(p: Primary, addr: LinkAddr): Primary {
    match p.lastSent
    case None => p
    case Some(o) =>
      if o.addr != addr then p
      else
        p.(lastSent := None, retryCount := 0, t1Armed := false,
           stations := if addr in p.stations then p.stations[addr := Restart(p.stations[addr])] else p.stations)
  }

  datatype Received = Received(p: Primary, out: seq<Frame>, newlyActive: Option<LinkAddr>, deliver: bool)

  datatype Reaction = Confirms | Fails | Ignores

  /** What a secondary frame means for the outstanding transaction. */
  function React(frame: Frame): Reaction
    requires !frame.SingleCharAck?
  {
    var fun := frame.control.fun;
    match frame
    case Fixed(_, _) =>
      if fun in {CONF_ACK, USER_DATA_NO_REP, RESP_STATUS} then Confirms
      else if fun in {RESP_LINK_NF, RESP_LINK_NI} then Fails
      else Ignores
    case Variable(_, _, _) =>
      if fun in {RESP_USER_DATA, RESP_STATUS, USER_DATA_NO_REP} then Confirms else Ignores
  }

  /** Data flow control is the station's latest word on whether it takes user data. */
  function NoteBusy(p: Primary, addr: LinkAddr, dfc: bool): Primary {
    if addr in p.stations then p.(stations := p.stations[addr := p.stations[addr].(busy := dfc)]) else p
  }

  /** Access demand: class 1 data is waiting, fetched at once if the link is free. */
  function NoteDemand(c: Settings, p: Primary, addr: LinkAddr): Turn
    requires addr in p.stations
  {
    var s := p.stations[addr].(wantClass1 := true);
    var p' := p.(stations := p.stations[addr := s]);
    if s.phase.Active? && p'.lastSent.None? then Request(c, p', addr, REQ_DATA1, true) else Turn(p', [])
  }

  function OnResponse(c: Settings, p: Primary, frame: Frame): Received
    requires !frame.SingleCharAck? && frame.linkAddr in p.stations
  {
    var addr, ctrl := frame.linkAddr, frame.control;
    var p1 := NoteBusy(p, addr, ctrl.dfc);
    var (p2, confirmed) :=
      match React(frame)
      case Confirms => ConfirmPositive(c, p1, Some(addr))
      case Fails => (FailTransaction(p1, addr), None)
      case Ignores => (p1, None);
    var deliver := frame.Variable? && ctrl.fun == RESP_USER_DATA && confirmed.Some?
                   && confirmed.value.fun in {REQ_DATA1, REQ_DATA2};
    var newly := if confirmed.Some? then confirmed.value.becameActive else None;
    var t := if ctrl.acd && !c.balanced && addr in p2.stations then NoteDemand(c, p2, addr) else Turn(p2, []);
    Received(t.p, t.out, newly, deliver)
  }

  // ---- the balanced-mode secondary role ----

  function PeerAck(c: Settings, fun: Nibble, addr: LinkAddr): Frame {
    if fun == CONF_ACK && c.singleCharAck then SingleCharAck
    else Fixed(SecondaryField(fun, false, c.balanced), addr)
  }

  /** A peer frame the duplicate detection let through. */
  function ServePeer(c: Settings, p: Primary, fun: Nibble, addr: LinkAddr): Received {
    if fun == RESET_LINK then
      Received(p.(fcbExpected := true), [PeerAck(c, CONF_ACK, addr)], None, false)
    else if fun == RESET_USER || fun == TEST_LINK then
      Received(p, [PeerAck(c, CONF_ACK, addr)], None, false)
    else if fun == USER_DATA_CONF then
      Received(p, [PeerAck(c, CONF_ACK, addr)], None, true)
    else if fun == USER_DATA_NO_CONF then
      Received(p, [], None, true)
    else if fun == REQ_STATUS then
      Received(p, [PeerAck(c, RESP_STATUS, addr)], None, false)
    else
      Received(p, [PeerAck(c, RESP_LINK_NI, addr)], None, false)
  }

  function OnPeerPrimary(c: Settings, p: Primary, ctrl: ControlField, addr: LinkAddr): Received {
    if FcvRequired(ctrl.fun).Some? && FcvRequired(ctrl.fun).value != ctrl.fcv then Received(p, [], None, false)
    else if ctrl.fcv && ctrl.fcb != p.fcbExpected then Received(p, [PeerAck(c, CONF_ACK, addr)], None, false)
    else ServePeer(c, if ctrl.fcv then p.(fcbExpected := !p.fcbExpected) else p, ctrl.fun, addr)
  }

  function HandleFrame(c: Settings, p: Primary, frame: Frame): Received {
    if frame.SingleCharAck? then
      var (p', confirmed) := ConfirmPositive(c, p, None);
      Received(p', [], if confirmed.Some? then confirmed.value.becameActive else None, false)
    else if frame.linkAddr !in p.stations then Received(p, [], None, false)
    else if frame.control.prm then
      if !c.balanced then Received(p, [], None, false)
      else OnPeerPrimary(c, p, frame.control, frame.linkAddr)
    else OnResponse(c, p, frame)
  }

  /** The octets handed to the application: the user data of a frame marked for delivery. */
  function Delivered(frame: Frame, r: Received): Option<seq<byte>> {
    if r.deliver && frame.Variable? then Some(frame.asdu) else None
  }

  // ---- sending ----

  predicate Eligible(stations: map<LinkAddr, Station>, addr: LinkAddr) {
    addr in stations && stations[addr].phase.Active? && !stations[addr].busy
  }

  /** The queue scan: the entry to send, if any, and the queue without it and the unknown ones passed. */
  function Scan(q: seq<Outgoing>, stations: map<LinkAddr, Station>): (Option<Outgoing>, seq<Outgoing>) {
    if q == [] then (None, [])
    else if q[0].addr !in stations then Scan(q[1..], stations)
    else if Eligible(stations, q[0].addr) then (Some(q[0]), q[1..])
    else
      var (found, rest) := Scan(q[1..], stations);
      (found, [q[0]] + rest)
  }

  lemma {:induction false} ScanFindsEligible(q: seq<Outgoing>, stations: map<LinkAddr, Station>)
    ensures Scan(q, stations).0.Some? ==> Eligible(stations, Scan(q, stations).0.value.addr)
  {
    if q != [] { ScanFindsEligible(q[1..], stations); }
  }

  /** The entries whose stations are configured, in order. */
  function Known(q: seq<Outgoing>, stations: map<LinkAddr, Station>): seq<Outgoing> {
    if q == [] then []
    else (if q[0].addr in stations then [q[0]] else []) + Known(q[1..], stations)
  }

  /**
   What the scan takes, k, is the earliest entry whose station is active and not busy. The entries
   it passes stay in order unless their station is unknown, and the ones after it are untouched.
   */
  lemma {:induction false} ScanTakesEarliest(q: seq<Outgoing>, stations: map<LinkAddr, Station>) returns (k: nat)
    ensures k <= |q| && forall i :: 0 <= i < k ==> !Eligible(stations, q[i].addr)
    ensures match Scan(q, stations).0
            case Some(o) =>
              && k < |q| && o == q[k] && Eligible(stations, o.addr)
              && Scan(q, stations).1 == Known(q[..k], stations) + q[k + 1..]
            case None => k == |q| && Scan(q, stations).1 == Known(q, stations)
  {
    if q == [] {
      k := 0;
    } else if Eligible(stations, q[0].addr) {
      k := 0;
    } else {
      var k' := ScanTakesEarliest(q[1..], stations);
      k := k' + 1;
      assert q[..k][1..] == q[1..][..k'];
      assert q[1..][k' ..] == q[k..];
      if k' < |q[1..]| {
        assert q[1..][k' + 1..] == q[k + 1..];
      }
    }
  }

  /** The messages waiting in the queue for a station. */
  function Waiting(q: seq<Outgoing>, a: LinkAddr): seq<Asdu> {
    if q == [] then [] else (if q[0].addr == a then [q[0].asdu] else []) + Waiting(q[1..], a)
  }

  /** Messages the queue scan took off the queue for a station. */
  function TakenFor(q: seq<Outgoing>, stations: map<LinkAddr, Station>, a: LinkAddr): seq<Asdu> {
    match Scan(q, stations).0
    case Some(o) => if o.addr == a then [o.asdu] else []
    case None => []
  }

  lemma {:induction false} WaitingAppend(q: seq<Outgoing>, o: Outgoing, a: LinkAddr)
    ensures Waiting(q + [o], a) == Waiting(q, a) + (if o.addr == a then [o.asdu] else [])
  {
    if q == [] {
      assert q + [o] == [o];
    } else {
      assert (q + [o])[1..] == q[1..] + [o];
      WaitingAppend(q[1..], o, a);
    }
  }

  lemma WaitingCons(o: Outgoing, q: seq<Outgoing>, a: LinkAddr)
    ensures Waiting([o] + q, a) == (if o.addr == a then [o.asdu] else []) + Waiting(q, a)
  {
    assert ([o] + q)[1..] == q;
  }

  /** The scan takes the first message of the station it picks, and none of any other known station's. */
  lemma {:induction false} ScanTakesFirst(q: seq<Outgoing>, stations: map<LinkAddr, Station>, a: LinkAddr)
    requires a in stations
    ensures Waiting(q, a) == TakenFor(q, stations, a) + Waiting(Scan(q, stations).1, a)
  {
    if q != [] {
      ScanTakesFirst(q[1..], stations, a);
      if q[0].addr in stations && !Eligible(stations, q[0].addr) {
        ScanFindsEligible(q[1..], stations);
        WaitingCons(q[0], Scan(q[1..], stations).1, a);
      }
    }
  }

  datatype QueueTurn = QueueTurn(p: Primary, out: seq<Frame>, queue: seq<Outgoing>, sent: bool)

  /** The frame a queued message becomes, None when it cannot be encoded or framed. */
  function DataFrame(c: Settings, asdu: Asdu, addr: LinkAddr, fcb: bool): Option<Frame> {
    if asdu.Unencodable? || 1 + c.addrSize + |asdu.octets| > MAX_LENGTH_FIELD then None
    else Some(Variable(PrimaryField(USER_DATA_CONF, true, fcb, c.balanced), addr, asdu.octets))
  }

  function TrySendQueued(c: Settings, p: Primary, q: seq<Outgoing>): QueueTurn {
    var (found, rest) := Scan(q, p.stations);
    if found.None? || found.value.addr !in p.stations then QueueTurn(p, [], rest, false)
    else
      match DataFrame(c, found.value.asdu, found.value.addr, p.stations[found.value.addr].fcb)
      case None => QueueTurn(p, [], rest, false)
      case Some(frame) =>
        var t := Send(p, frame, found.value.addr);
        QueueTurn(t.p, t.out, rest, true)
  }

  /** The polling loop of `tick`: at most n stations are looked at. */
  function Poll(c: Settings, p: Primary, n: nat): Turn
    requires WellFormed(p)
    decreases n
  {
    if n == 0 then Turn(p, [])
    else
      var addr := p.order[p.pollIdx];
      var p' := p.(pollIdx := (p.pollIdx + 1) % |p.order|);
      match p.stations[addr].phase
      case Status => Request(c, p', addr, REQ_STATUS, false)
      case Reset => Request(c, p', addr, RESET_LINK, false)
      case Active =>
        if c.balanced then Poll(c, p', n - 1)
        else Request(c, p', addr, if p.stations[addr].wantClass1 then REQ_DATA1 else REQ_DATA2, true)
  }

  function Tick(c: Settings, p: Primary, q: seq<Outgoing>): QueueTurn
    requires WellFormed(p)
  {
    if p.lastSent.Some? then QueueTurn(p, [], q, false)
    else
      var s := TrySendQueued(c, p, q);
      if s.sent then s
      else
        var t := Poll(c, p, |p.order|);
        QueueTurn(t.p, t.out, s.queue, false)
  }

  // ---- timers and manual requests ----

  /** t1 expired; the flag says that the connection is lost with its only peer. */
  function OnT1(c: Settings, p: Primary): (Turn, bool) {
    match p.lastSent
    case None => (Turn(p.(t1Armed := false), []), false)
    case Some(o) =>
      if p.retryCount < c.maxRepetitions then
        (Turn(p.(retryCount := p.retryCount + 1, t1Armed := true), [o.frame]), false)
      else
        (Turn(p.(lastSent := None, retryCount := 0, t1Armed := false,
                 stations := if o.addr in p.stations then p.stations[o.addr := Restart(p.stations[o.addr])] else p.stations), []),
         |p.order| == 1)
  }

  function FirstActive(order: seq<LinkAddr>, stations: map<LinkAddr, Station>): (r: Option<LinkAddr>)
    ensures r.Some? ==> r.value in stations && stations[r.value].phase.Active?
  {
    if order == [] then None
    else if order[0] in stations && stations[order[0]].phase.Active? then Some(order[0])
    else FirstActive(order[1..], stations)
  }

  /** The line has been idle. 101 tests the link; 103 polls for class 2 data. */
  function OnT3(c: Settings, p: Primary): Turn {
    if p.lastSent.Some? then Turn(p, [])
    else
      match FirstActive(p.order, p.stations)
      case None => Turn(p, [])
      case Some(addr) => Request(c, p, addr, if c.profile.Cs101? then TEST_LINK else REQ_DATA2, true)
  }

  function LinkRequest(c: Settings, p: Primary, fun: Nibble, addr: LinkAddr): Turn {
    if p.lastSent.Some? || addr !in p.stations then Turn(p, [])
    else if IsReset(c, fun) then
      Request(c, p.(stations := p.stations[addr := p.stations[addr].(phase := Reset)]), addr, fun, false)
    else if fun == REQ_STATUS then Request(c, p, addr, REQ_STATUS, false)
    else if fun == REQ_DATA2 && p.stations[addr].phase.Active? && !c.balanced then Request(c, p, addr, REQ_DATA2, true)
    else Turn(p, [])
  }
}
