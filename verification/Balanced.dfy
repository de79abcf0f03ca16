/**
 A balanced line: two stations that each play both roles. Station A is the program's client, station
 B its server; each has a transaction of its own, and the line may lose any frame or response of
 either. As on a multi-drop line, nothing arrives after the timer of its own attempt has fired.
 */
module Balanced {
  import opened Octets
  import opened Collecting
  import opened Ft12
  import opened PrimaryStation
  import opened PrimaryTurns
  import opened Transactions
  import FC = FrameCount
  import SS = SecondaryStation

  datatype Direction = FromA | FromB

  /** What an observer of one direction records. */
  datatype Record = Record(
    sent: seq<Frame>,                    // counted frames its sender issued, repeats excluded
    acted: seq<(Frame, Frame)>,          // counted frames its receiver acted on, with the answer
    answered: seq<(Frame, Frame)>,       // counted frames confirmed, with the answer received
    abandoned: seq<Frame>,               // counted frames its sender gave up on
    queued: seq<Asdu>,                   // messages its application queued
    taken: seq<Asdu>,                    // messages taken off the queue
    handled: seq<seq<byte>>)             // user data the receiving application was given

  const BLANK: Record := Record([], [], [], [], [], [], [])

  datatype System = System(
    p: Primary, queue: seq<Outgoing>,    // station A
    ended: bool,                         // A gave up its peer and left its loop
    s: SS.Secondary, b: SS.Buffers,      // station B
    fromA: Line, fromB: Line,            // the attempt of each direction
    recA: Record, recB: Record)

  datatype Setup = Setup(primary: Settings, secondary: SS.Config, addr: LinkAddr) {
    predicate Valid() {
      && primary.Valid() && primary.profile.Cs101? && primary.balanced
      && secondary.Valid() && secondary.balanced && secondary.addrSize == primary.addrSize
      && SS.Broadcast(secondary) != Some(addr)
    }
  }

  datatype Event =
    | Enqueue(asdu: Asdu)                // A's application sends
    | Offer(m: SS.Message)               // B's application sends
    | TickA | IdleFires | Manual(fun: Nibble)
    | TickB(initDue: bool)
    | Overdue(d: Direction)              // the timer of the outstanding frame
    | Lost(d: Direction)
    | Arrives(d: Direction)              // what is on the line for this direction reaches its end

  function Start(c: Setup): System {
    System(PrimaryStation.Initial([c.addr]), [], false, SS.Initial(c.addr), SS.EMPTY_BUFFERS,
           Line.Idle, Line.Idle, BLANK, BLANK)
  }

  /** A transaction is abandoned; only a counted frame can cost a message. */
  function GivenUp(r: Record, f: Frame): Record {
    if CountsFrames(f) then r.(abandoned := r.abandoned + [f]) else r
  }

  // ---- direction from A ----

  function Issue(r: Record, f: Frame): Record { if CountsFrames(f) then r.(sent := r.sent + [f]) else r }

  /** A's turn: its frame goes on the line. */
  function Issued(y: System, t: Turn): System {
    if t.out == [] then y.(p := t.p)
    else y.(p := t.p, fromA := Down(t.out[0]), recA := Issue(y.recA, t.out[0]))
  }

  function TickedA(c: Setup, y: System): System
    requires WellFormed(y.p)
  {
    if y.p.lastSent.Some? then y
    else
      var t := Tick(c.primary, y.p, y.queue);
      var r := y.recA.(taken := y.recA.taken + TakenFor(y.queue, y.p.stations, c.addr));
      Issued(y.(queue := t.queue, recA := r), Turn(t.p, t.out))
  }

  function OverdueA(c: Setup, y: System): System {
    var (t, fatal) := OnT1(c.primary, y.p);
    if t.out != [] then y.(p := t.p, fromA := Down(t.out[0]))
    else if y.p.lastSent.Some? then y.(p := t.p, ended := fatal, recA := GivenUp(y.recA, y.p.lastSent.value.frame))
    else y.(p := t.p)
  }

  function Answered(r: Record, f: Frame, resp: Frame): Record {
    if CountsFrames(f) then r.(answered := r.answered + [(f, resp)]) else r
  }

  function ResponseAtA(c: Setup, y: System, f: Frame): System {
    var r := HandleFrame(c.primary, y.p, f);
    y.(p := r.p, fromA := Line.Idle,
       recA := if Settles(y.p, f, Confirms) then Answered(y.recA, y.p.lastSent.value.frame, f)
               else if Settles(y.p, f, Fails) then GivenUp(y.recA, y.p.lastSent.value.frame)
               else y.recA)
  }

  function Handled(r: Record, u: Option<seq<byte>>): Record {
    match u case Some(d) => r.(handled := r.handled + [d]) case None => r
  }

  function Acted(r: Record, isNew: bool, f: Frame, out: seq<Frame>): Record {
    if isNew && out != [] then r.(acted := r.acted + [(f, out[0])]) else r
  }

  function FrameAtB(c: Setup, y: System, f: Frame): System {
    var o := SS.HandleFrame(c.secondary, y.s, y.b, f);
    y.(s := o.s, b := o.b, fromA := if o.out != [] then Up(o.out[0]) else Line.Idle,
       recA := Handled(Acted(y.recA, IsNew(y.s, f), f, o.out), o.asdu))
  }

  // ---- direction from B ----

  function TickedB(c: Setup, y: System, initDue: bool): System {
    var t := SS.PrimTick(c.secondary, y.s, y.b, false, initDue);
    var r := if t.b.primQueue != y.b.primQueue && y.b.primQueue != []
             then y.recB.(taken := y.recB.taken + [y.b.primQueue[0]]) else y.recB;
    if t.out == [] then y.(s := t.s, b := t.b, recB := r)
    else y.(s := t.s, b := t.b, fromB := Down(t.out[0]), recB := Issue(r, t.out[0]))
  }

  function OverdueB(c: Setup, y: System): System
  {
    if y.s.primOut.None? then y
    else
      var t := SS.PrimTick(c.secondary, y.s, y.b, true, false);
      if t.out != [] then y.(s := t.s, b := t.b, fromB := Down(t.out[0]))
      else y.(s := t.s, b := t.b, recB := GivenUp(y.recB, y.s.primOut.value))
  }

  /** A response that confirms B's outstanding frame. */
  predicate ConfirmsB(s: SS.Secondary, f: Frame) {
    s.primOut.Some? && (f.SingleCharAck? || f.control.fun in {CONF_ACK, RESP_STATUS})
  }

  predicate FailsB(s: SS.Secondary, f: Frame) {
    s.primOut.Some? && !f.SingleCharAck? && f.control.fun in {RESP_LINK_NF, RESP_LINK_NI}
  }

  function ResponseAtB(c: Setup, y: System, f: Frame): System {
    var o := SS.HandleFrame(c.secondary, y.s, y.b, f);
    y.(s := o.s, b := o.b, fromB := Line.Idle,
       recB := if ConfirmsB(y.s, f) then Answered(y.recB, y.s.primOut.value, f)
               else if FailsB(y.s, f) then GivenUp(y.recB, y.s.primOut.value)
               else y.recB)
  }

  /** A's own test of a counted frame of its peer. */
  predicate IsNewAtA(p: Primary, f: Frame) { CountsFrames(f) && f.control.fcb == p.fcbExpected }

  function FrameAtA(c: Setup, y: System, f: Frame): System {
    var r := HandleFrame(c.primary, y.p, f);
    y.(p := r.p, fromB := if r.out != [] then Up(r.out[0]) else Line.Idle,
       recB := Handled(Acted(y.recB, IsNewAtA(y.p, f), f, r.out), Delivered(f, r)))
  }

  // ---- steps ----

  function Offered(c: Setup, y: System, m: SS.Message): System {
    match SS.Accept(c.secondary, y.b, m)
    case None => y
    case Some(b) => y.(b := b, recB := y.recB.(queued := y.recB.queued + [m.asdu]))
  }

  /** An A that has left its loop hears and sends nothing. */
  function Step(c: Setup, y: System, e: Event): System
    requires WellFormed(y.p)
  {
    match e
    case Enqueue(asdu) => y.(queue := y.queue + [Outgoing(asdu, c.addr)], recA := y.recA.(queued := y.recA.queued + [asdu]))
    case Offer(m) => Offered(c, y, m)
    case TickA => if y.ended then y else TickedA(c, y)
    case IdleFires => if y.ended then y else Issued(y, OnT3(c.primary, y.p))
    case Manual(fun) => if y.ended then y else Issued(y, LinkRequest(c.primary, y.p, fun, c.primary.defaultAddr))
    case TickB(initDue) => if y.s.primOut.Some? then y else TickedB(c, y, initDue)
    case Overdue(FromA) => if y.ended || !y.fromA.Idle? then y else OverdueA(c, y)
    case Overdue(FromB) => if !y.fromB.Idle? then y else OverdueB(c, y)
    case Lost(FromA) => y.(fromA := Line.Idle)
    case Lost(FromB) => y.(fromB := Line.Idle)
    case Arrives(FromA) => ArrivedFromA(c, y)
    case Arrives(FromB) => ArrivedFromB(c, y)
  }

  function ArrivedFromA(c: Setup, y: System): System {
    match y.fromA
    case Idle => y
    case Down(f) => FrameAtB(c, y, f)
    case Up(f) => if y.ended then y.(fromA := Line.Idle) else ResponseAtA(c, y, f)
  }

  function ArrivedFromB(c: Setup, y: System): System {
    match y.fromB
    case Idle => y
    case Down(f) => if y.ended then y.(fromB := Line.Idle) else FrameAtA(c, y, f)
    case Up(f) => ResponseAtB(c, y, f)
  }

  // ---- each direction's view of the frame count bit procedure ----

  function AttemptOf(l: Line): FC.Attempt<Frame> {
    match l case Idle => FC.Idle case Down(_) => FC.Down case Up(f) => FC.Up(f)
  }

  function ViewA(c: Setup, y: System): FC.Link<Frame, Frame>
    requires c.addr in y.p.stations
  {
    FC.Link(
      y.p.stations[c.addr].phase.Active?, y.p.stations[c.addr].fcb,
      (match y.p.lastSent case Some(o) => Some(FC.Outstanding(KindOf(o.frame), o.frame)) case None => None),
      y.s.fcbExpected, y.s.lastResp, AttemptOf(y.fromA),
      y.recA.sent, y.recA.acted, y.recA.answered, y.recA.abandoned)
  }

  /** A answers every repetition with the same acknowledgement, so it need not keep one. */
  function ViewB(c: Setup, y: System): FC.Link<Frame, Frame> {
    FC.Link(
      y.s.primActive, y.s.primFcb,
      (match y.s.primOut case Some(f) => Some(FC.Outstanding(KindOf(f), f)) case None => None),
      y.p.fcbExpected, Some(PeerAck(c.primary, CONF_ACK, c.addr)), AttemptOf(y.fromB),
      y.recB.sent, y.recB.acted, y.recB.answered, y.recB.abandoned)
  }

  /** A frame of B's primary role. */
  predicate PeerFrame(f: Frame, a: LinkAddr) {
    && !f.SingleCharAck? && f.linkAddr == a && f.control.prm
    && ((f.Fixed? && f.control.fun == RESET_LINK && !f.control.fcv)
        || (f.Variable? && f.control.fun == USER_DATA_CONF && f.control.fcv))
  }

  predicate Shape(c: Setup, y: System) {
    && WellFormed(y.p) && y.p.order == [c.addr] && y.p.stations.Keys == {c.addr}
    && y.s.linkAddr == c.addr
    && (y.s.lastResp.Some? ==> ResponseFrom(y.s.lastResp.value, c.addr))
  }

  predicate ShapeA(c: Setup, y: System) {
    && (y.p.lastSent.None? ==> y.fromA.Idle?)
    && (y.p.lastSent.Some? ==>
        var o := y.p.lastSent.value;
        && PrimaryFrame(o.frame, c.addr) && o.addr == c.addr && o.ctrl == o.frame.control
        && (y.fromA.Down? ==> y.fromA.frame == o.frame)
        && (y.fromA.Up? ==> ResponseFrom(y.fromA.frame, c.addr)))
  }

  predicate ShapeB(c: Setup, y: System) {
    && (y.s.primOut.None? ==> y.fromB.Idle?)
    && (y.s.primOut.Some? ==>
        && PeerFrame(y.s.primOut.value, c.addr) && y.s.primOutCtrl == y.s.primOut.value.control
        && (y.fromB.Down? ==> y.fromB.frame == y.s.primOut.value)
        && (y.fromB.Up? ==> y.fromB.frame == PeerAck(c.primary, CONF_ACK, c.addr)))
  }

  ghost predicate Invariant(c: Setup, y: System) {
    && Shape(c, y) && ShapeA(c, y) && ShapeB(c, y)
    && FC.Good(ViewA(c, y)) && FC.Good(ViewB(c, y))
  }
}
