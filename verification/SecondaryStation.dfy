/**
 The secondary station of IEC 60870-5-101 (src/cs101/server.rs), as values: duplicate detection with
 the cached response, the two class buffers, and the primary role of the balanced mode.
 */
module SecondaryStation {
  import opened Octets
  import opened Ft12
  import opened PrimaryStation

  datatype Config = Config(addrSize: nat, balanced: bool, singleCharAck: bool, maxRepetitions: nat, maxQueue: nat) {
    predicate Valid() { 1 <= addrSize <= 2 }
  }

  /** An application message with the class its cause of transmission puts it in. */
  datatype Message = Message(asdu: Asdu, class2: bool)

  /** The buffers shared with the application. */
  datatype Buffers = Buffers(class1: seq<Asdu>, class2: seq<Asdu>, primQueue: seq<Asdu>)

  const EMPTY_BUFFERS: Buffers := Buffers([], [], [])

  datatype Secondary = Secondary(
    linkAddr: LinkAddr,
    fcbExpected: bool,
    lastResp: Option<Frame>,
    // the primary role of the balanced mode
    primOut: Option<Frame>,
    primOutCtrl: ControlField,
    primFcb: bool,
    primActive: bool,
    primRetry: nat)

  const NO_CONTROL: ControlField := ControlField(false, false, false, false, false, false, 0)

  function Initial(linkAddr: LinkAddr): Secondary {
    Secondary(linkAddr, true, None, None, NO_CONTROL, false, false, 0)
  }

  /** Where `send` puts a message; None when the buffer is full. */
  function Accept(c: Config, b: Buffers, m: Message): Option<Buffers> {
    if c.balanced then
      if |b.primQueue| >= c.maxQueue then None else Some(b.(primQueue := b.primQueue + [m.asdu]))
    else if m.class2 then
      if |b.class2| >= c.maxQueue then None else Some(b.(class2 := b.class2 + [m.asdu]))
    else
      if |b.class1| >= c.maxQueue then None else Some(b.(class1 := b.class1 + [m.asdu]))
  }

  /** What a poll takes out of the buffers: the message and the class it came from. */
  datatype Popped = Popped(asdu: Asdu, class2: bool)

  /** A poll takes from its own class, falling back to the other one. */
  function PopClass(b: Buffers, class2: bool): (Option<Popped>, Buffers) {
    if class2 && b.class2 != [] then (Some(Popped(b.class2[0], true)), b.(class2 := b.class2[1..]))
    else if b.class1 != [] then (Some(Popped(b.class1[0], false)), b.(class1 := b.class1[1..]))
    else if b.class2 != [] then (Some(Popped(b.class2[0], true)), b.(class2 := b.class2[1..]))
    else (None, b)
  }

  datatype Outcome = Outcome(s: Secondary, b: Buffers, out: seq<Frame>, asdu: Option<seq<byte>>, becameActive: bool)

  function Respond(s: Secondary, b: Buffers, f: Frame, asdu: Option<seq<byte>>, becameActive: bool): Outcome {
    Outcome(s.(lastResp := Some(f)), b, [f], asdu, becameActive)
  }

  function SecFrame(s: Secondary, fun: Nibble, acd: bool): Frame {
    Fixed(SecondaryField(fun, acd, false), s.linkAddr)
  }

  /** The single character replaces an acknowledgement only when no access demand is lost by it. */
  function AckFrame(c: Config, s: Secondary, fun: Nibble, acd: bool): Frame {
    if c.singleCharAck && !acd then SingleCharAck else SecFrame(s, fun, acd)
  }

  function LinkAck(c: Config, s: Secondary, b: Buffers): Frame { AckFrame(c, s, CONF_ACK, b.class1 != []) }

  /** Answer a class poll. A message that cannot be encoded is dropped and answered as no data. */
  function ClassResponse(c: Config, s: Secondary, b: Buffers, class2: bool): (Frame, Buffers) {
    var (popped, b') := PopClass(b, class2);
    match popped
    case None => (AckFrame(c, s, USER_DATA_NO_REP, false), b')
    case Some(m) =>
      match m.asdu
      case Unencodable => (SecFrame(s, USER_DATA_NO_REP, b'.class1 != []), b')
      case Encodable(octets) => (Variable(SecondaryField(RESP_USER_DATA, b'.class1 != [], false), s.linkAddr, octets), b')
  }

  function Broadcast(c: Config): Option<LinkAddr> {
    if c.addrSize == 1 then Some(0xff) else if c.addrSize == 2 then Some(0xffff) else None
  }

  function UserData(f: Frame): Option<seq<byte>> {
    if f.Variable? then Some(f.asdu) else None
  }

  /** A primary frame the duplicate detection let through. */
  function Serve(c: Config, s: Secondary, b: Buffers, f: Frame): Outcome
    requires !f.SingleCharAck?
  {
    var fun := f.control.fun;
    if fun == RESET_LINK then
      Respond(s.(fcbExpected := true), b, LinkAck(c, s, b), None, true)
    else if fun == RESET_USER || fun == TEST_LINK then
      Respond(s, b, LinkAck(c, s, b), None, false)
    else if fun == USER_DATA_CONF then
      Respond(s, b, LinkAck(c, s, b), UserData(f), false)
    else if fun == USER_DATA_NO_CONF then
      Outcome(s, b, [], UserData(f), false)
    else if fun == REQ_ACCESS || fun == REQ_STATUS then
      Respond(s, b, SecFrame(s, RESP_STATUS, b.class1 != []), None, false)
    else if fun == REQ_DATA1 || fun == REQ_DATA2 then
      var (resp, b') := ClassResponse(c, s, b, fun == REQ_DATA2);
      Respond(s, b', resp, None, false)
    else
      Respond(s, b, SecFrame(s, RESP_LINK_NI, false), None, false)
  }

  function OnPrimary(c: Config, s: Secondary, b: Buffers, f: Frame): Outcome
    requires !f.SingleCharAck?
  {
    var ctrl := f.control;
    if FcvRequired(ctrl.fun).Some? && FcvRequired(ctrl.fun).value != ctrl.fcv then Outcome(s, b, [], None, false)
    else if ctrl.fcv && ctrl.fcb != s.fcbExpected then
      match s.lastResp
      case Some(resp) => Outcome(s, b, [resp], None, false)
      case None => Respond(s, b, LinkAck(c, s, b), None, false)
    else
      Serve(c, if ctrl.fcv then s.(fcbExpected := !s.fcbExpected) else s, b, f)
  }

  // ---- the balanced-mode primary role ----

  function PrimConfirm(s: Secondary): Secondary {
    if s.primOut.None? then s
    else
      var s' := if s.primOutCtrl.fcv then s.(primFcb := !s.primOutCtrl.fcb) else s;
      var s'' := if s.primOutCtrl.fun == RESET_LINK then s'.(primActive := true, primFcb := true) else s';
      s''.(primOut := None, primRetry := 0)
  }

  function OnPeerSecondary(s: Secondary, ctrl: ControlField): Secondary {
    if ctrl.fun == CONF_ACK || ctrl.fun == RESP_STATUS then PrimConfirm(s)
    else if ctrl.fun == RESP_LINK_NF || ctrl.fun == RESP_LINK_NI then
      s.(primOut := None, primRetry := 0, primActive := false)
    else s
  }

  function HandleFrame(c: Config, s: Secondary, b: Buffers, f: Frame): Outcome {
    if f.SingleCharAck? then
      Outcome(if c.balanced then PrimConfirm(s) else s, b, [], None, false)
    else if c.addrSize > 0 && f.linkAddr != s.linkAddr && Broadcast(c) != Some(f.linkAddr) && Broadcast(c).Some? then
      Outcome(s, b, [], None, false)
    else if !f.control.prm then
      Outcome(if c.balanced then OnPeerSecondary(s, f.control) else s, b, [], None, false)
    else if Broadcast(c) == Some(f.linkAddr) then
      Outcome(s, b, [], if f.control.fun == USER_DATA_NO_CONF then UserData(f) else None, false)
    else OnPrimary(c, s, b, f)
  }

  function PrimSend(s: Secondary, f: Frame): Secondary
    requires !f.SingleCharAck?
  {
    s.(primOut := Some(f), primOutCtrl := f.control, primRetry := 0)
  }

  datatype PrimTurn = PrimTurn(s: Secondary, b: Buffers, out: seq<Frame>)

  /** One tick of the primary role; the flags are its two timer comparisons. */
  function PrimTick(c: Config, s: Secondary, b: Buffers, overdue: bool, initDue: bool): PrimTurn {
    match s.primOut
    case Some(f) =>
      if !overdue then PrimTurn(s, b, [])
      else if s.primRetry < c.maxRepetitions then PrimTurn(s.(primRetry := s.primRetry + 1), b, [f])
      else PrimTurn(s.(primOut := None, primRetry := 0, primActive := false), b, [])
    case None =>
      if !s.primActive then
        if !initDue then PrimTurn(s, b, [])
        else
          var f := Fixed(PrimaryField(RESET_LINK, false, false, false), s.linkAddr);
          PrimTurn(PrimSend(s, f), b, [f])
      else if b.primQueue == [] then PrimTurn(s, b, [])
      else
        var b' := b.(primQueue := b.primQueue[1..]);
        var asdu := b.primQueue[0];
        if asdu.Unencodable? || 1 + c.addrSize + |asdu.octets| > MAX_LENGTH_FIELD then PrimTurn(s, b', [])
        else
          var f := Variable(PrimaryField(USER_DATA_CONF, true, s.primFcb, false), s.linkAddr, asdu.octets);
          PrimTurn(PrimSend(s, f), b', [f])
  }
}
