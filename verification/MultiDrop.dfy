/**
 An unbalanced multi-drop line: one primary, any number of secondaries, and a line that may lose
 every frame and every response.

 An attempt is over before its timer fires: t1 expires only when nothing is left on the line. That
 is the one assumption about the line; otherwise events come in any order.
 */
module MultiDrop {
  import opened Octets
  import opened Collecting
  import opened Ft12
  import opened PrimaryStation
  import opened Transactions
  import opened PrimaryTurns
  import FC = FrameCount
  import SS = SecondaryStation

  /** What an observer of one station records. */
  datatype Record = Record(
    sent: seq<Frame>,                       // counted frames issued to it, repeats excluded
    acted: seq<(Frame, Frame)>,             // counted frames it acted on, with its answer
    answered: seq<(Frame, Frame)>,          // counted frames confirmed, with the answer received
    abandoned: seq<Frame>,                  // counted frames the primary gave up on
    enqueued: seq<Asdu>, taken: seq<Asdu>,  // messages queued for it, and taken off the queue
    handled: seq<seq<byte>>,                // user data its handler was given
    accepted1: seq<Asdu>, accepted2: seq<Asdu>,  // messages its application buffered, by class
    popped: seq<SS.Popped>,                 // messages polls took out of the buffers
    collected: seq<seq<byte>>)              // user data the primary delivered from it

  const BLANK: Record := Record([], [], [], [], [], [], [], [], [], [], [])

  datatype System = System(
    p: Primary,
    queue: seq<Outgoing>,
    secs: map<LinkAddr, SS.Secondary>,
    bufs: map<LinkAddr, SS.Buffers>,
    line: Line,
    ended: bool,                            // the primary gave up its only peer and left its loop
    rec: map<LinkAddr, Record>)

  /** Every station has a configuration of its own; only the link address width is common to the line. */
  datatype Setup = Setup(primary: Settings, secondary: LinkAddr -> SS.Config, order: seq<LinkAddr>) {
    ghost predicate Valid() {
      && primary.Valid() && primary.profile.Cs101? && !primary.balanced
      && (forall a :: secondary(a).Valid() && !secondary(a).balanced && secondary(a).addrSize == primary.addrSize)
      && |order| > 0
      && forall a :: a in order ==> SS.Broadcast(secondary(a)) != Some(a)
    }
  }

  datatype Event =
    | Enqueue(asdu: Asdu, addr: LinkAddr)       // the primary's application sends
    | Offer(addr: LinkAddr, m: SS.Message)      // a secondary's application sends
    | TickFires
    | IdleFires                                 // t3
    | Manual(fun: Nibble)                       // a manual link request
    | ResponseOverdue                           // t1, or t2 after a repetition
    | Lost                                      // the line loses what is on it
    | Arrives                                   // what is on the line reaches its end

  function Start(c: Setup): System {
    System(PrimaryStation.Initial(c.order), [],
           map a | a in c.order :: SS.Initial(a), map a | a in c.order :: SS.EMPTY_BUFFERS,
           Line.Idle, false, map a | a in c.order :: BLANK)
  }

  // ---- the primary's turns ----

  function Noted(rec: map<LinkAddr, Record>, a: LinkAddr, r: Record): map<LinkAddr, Record> {
    if a in rec then rec[a := r] else rec
  }

  function RecordOf(y: System, a: LinkAddr): Record {
    if a in y.rec then y.rec[a] else BLANK
  }

  /** A fresh frame goes on the line. */
  function Issued(y: System, t: Turn): System {
    if t.out == [] || t.out[0].SingleCharAck? then y.(p := t.p)
    else
      var f := t.out[0];
      var r := RecordOf(y, f.linkAddr);
      y.(p := t.p, line := Down(f),
         rec := if CountsFrames(f) then Noted(y.rec, f.linkAddr, r.(sent := r.sent + [f])) else y.rec)
  }

  function Ticked(c: Setup, y: System): System
    requires WellFormed(y.p)
  {
    if y.p.lastSent.Some? then y
    else
      var t := Tick(c.primary, y.p, y.queue);
      var rec := map a | a in y.rec :: y.rec[a].(taken := y.rec[a].taken + TakenFor(y.queue, y.p.stations, a));
      Issued(y.(queue := t.queue, rec := rec), Turn(t.p, t.out))
  }

  /** A transaction is abandoned; only a counted frame can cost a message. */
  function GivenUp(r: Record, f: Frame): Record {
    if CountsFrames(f) then r.(abandoned := r.abandoned + [f]) else r
  }

  function Abandoned(y: System, a: LinkAddr, f: Frame): map<LinkAddr, Record> {
    var r := RecordOf(y, a);
    Noted(y.rec, a, GivenUp(r, f))
  }

  function Overdue(c: Setup, y: System): System {
    match y.p.lastSent
    case None => y.(p := OnT1(c.primary, y.p).0.p)
    case Some(o) =>
      var (t, fatal) := OnT1(c.primary, y.p);
      if t.out != [] then y.(p := t.p, line := Down(t.out[0]))
      else y.(p := t.p, ended := fatal, rec := Abandoned(y, o.addr, o.frame))
  }

  function RecordResponse(y: System, f: Frame, r: Received): map<LinkAddr, Record> {
    if Settles(y.p, f, Confirms) then
      var o := y.p.lastSent.value;
      var was := RecordOf(y, o.addr);
      Noted(y.rec, o.addr,
            was.(answered := if CountsFrames(o.frame) then was.answered + [(o.frame, f)] else was.answered,
                 collected := match Delivered(f, r) case Some(u) => was.collected + [u] case None => was.collected))
    else if Settles(y.p, f, Fails) then Abandoned(y, y.p.lastSent.value.addr, y.p.lastSent.value.frame)
    else y.rec
  }

  function ResponseArrives(c: Setup, y: System, f: Frame): System {
    var r := HandleFrame(c.primary, y.p, f);
    Issued(y.(line := Line.Idle, rec := RecordResponse(y, f, r)), Turn(r.p, r.out))
  }

  // ---- the secondaries' turns ----

  predicate IsPoll(f: Frame) {
    !f.SingleCharAck? && f.control.fun in {REQ_DATA1, REQ_DATA2}
  }

  function RecordActing(c: SS.Config, r: Record, s: SS.Secondary, b: SS.Buffers, f: Frame): Record {
    var o := SS.HandleFrame(c, s, b, f);
    r.(acted := if IsNew(s, f) && o.out != [] then r.acted + [(f, o.out[0])] else r.acted,
       handled := match o.asdu case Some(u) => r.handled + [u] case None => r.handled,
       popped := if IsNew(s, f) && IsPoll(f)
                 then (match SS.PopClass(b, f.control.fun == REQ_DATA2).0
                       case Some(m) => r.popped + [m] case None => r.popped)
                 else r.popped)
  }

  /** Every station on the line hears the frame; the addressed one answers. */
  function FrameArrives(c: Setup, y: System, f: Frame): System
    requires y.secs.Keys == y.bufs.Keys
    requires !f.SingleCharAck?
  {
    var a := f.linkAddr;
    var answer := if a in y.secs then SS.HandleFrame(c.secondary(a), y.secs[a], y.bufs[a], f).out else [];
    y.(secs := map b | b in y.secs :: SS.HandleFrame(c.secondary(b), y.secs[b], y.bufs[b], f).s,
       bufs := map b | b in y.secs :: SS.HandleFrame(c.secondary(b), y.secs[b], y.bufs[b], f).b,
       line := if answer != [] then Up(answer[0]) else Line.Idle,
       rec := if a in y.secs then Noted(y.rec, a, RecordActing(c.secondary(a), RecordOf(y, a), y.secs[a], y.bufs[a], f)) else y.rec)
  }

  function Offered(c: Setup, y: System, a: LinkAddr, m: SS.Message): System {
    if a !in y.bufs then y
    else
      match SS.Accept(c.secondary(a), y.bufs[a], m)
      case None => y
      case Some(b) =>
        var r := RecordOf(y, a);
        y.(bufs := y.bufs[a := b],
           rec := Noted(y.rec, a, if m.class2 then r.(accepted2 := r.accepted2 + [m.asdu])
                                  else r.(accepted1 := r.accepted1 + [m.asdu])))
  }

  function Enqueued(y: System, asdu: Asdu, a: LinkAddr): System {
    var r := RecordOf(y, a);
    y.(queue := y.queue + [Outgoing(asdu, a)], rec := Noted(y.rec, a, r.(enqueued := r.enqueued + [asdu])))
  }

  /** Enough of well-formedness for the step function to be total. */
  predicate Sound(y: System) {
    && WellFormed(y.p) && y.secs.Keys == y.bufs.Keys
    && (y.line.Down? ==> !y.line.frame.SingleCharAck?)
  }

  /** A primary that has left its loop hears nothing. */
  function Arrived(c: Setup, y: System): System
    requires Sound(y)
  {
    match y.line
    case Idle => y
    case Down(f) => FrameArrives(c, y, f)
    case Up(f) => if y.ended then y.(line := Line.Idle) else ResponseArrives(c, y, f)
  }

  function Step(c: Setup, y: System, e: Event): System
    requires Sound(y)
  {
    match e
    case Enqueue(asdu, a) => Enqueued(y, asdu, a)
    case Offer(a, m) => Offered(c, y, a, m)
    case Lost => y.(line := Line.Idle)
    case Arrives => Arrived(c, y)
    case TickFires => if y.ended then y else Ticked(c, y)
    case IdleFires => if y.ended then y else Issued(y, OnT3(c.primary, y.p))
    case Manual(fun) => if y.ended then y else Issued(y, LinkRequest(c.primary, y.p, fun, c.primary.defaultAddr))
    case ResponseOverdue => if y.ended || !y.line.Idle? then y else Overdue(c, y)
  }

  // ---- one station's view of the frame count bit procedure ----

  predicate Awaits(p: Primary, a: LinkAddr) {
    p.lastSent.Some? && p.lastSent.value.addr == a
  }

  function AttemptOf(y: System, a: LinkAddr): FC.Attempt<Frame> {
    if !Awaits(y.p, a) then FC.Idle
    else
      match y.line
      case Idle => FC.Idle
      case Down(_) => FC.Down
      case Up(f) => FC.Up(f)
  }

  function View(y: System, a: LinkAddr): FC.Link<Frame, Frame>
    requires a in y.p.stations && a in y.secs && a in y.rec
  {
    FC.Link(
      y.p.stations[a].phase.Active?, y.p.stations[a].fcb,
      if Awaits(y.p, a) then Some(FC.Outstanding(KindOf(y.p.lastSent.value.frame), y.p.lastSent.value.frame)) else None,
      y.secs[a].fcbExpected, y.secs[a].lastResp,
      AttemptOf(y, a),
      y.rec[a].sent, y.rec[a].acted, y.rec[a].answered, y.rec[a].abandoned)
  }

  predicate Stations(c: Setup, y: System) {
    && WellFormed(y.p)
    && y.p.stations.Keys == y.secs.Keys == y.bufs.Keys == y.rec.Keys
    && forall a :: a in y.secs ==>
         && y.secs[a].linkAddr == a && SS.Broadcast(c.secondary(a)) != Some(a)
         && (y.secs[a].lastResp.Some? ==> ResponseFrom(y.secs[a].lastResp.value, a))
  }

  predicate OnLine(y: System) {
    && (y.p.lastSent.None? ==> y.line.Idle?)
    && (y.p.lastSent.Some? ==>
        var o := y.p.lastSent.value;
        && PrimaryFrame(o.frame, o.addr) && o.ctrl == o.frame.control
        && (y.line.Down? ==> y.line.frame == o.frame)
        && (y.line.Up? ==> ResponseFrom(y.line.frame, o.addr)))
  }

  ghost predicate Invariant(c: Setup, y: System) {
    && Stations(c, y) && OnLine(y)
    && forall a :: a in y.secs ==> FC.Good(View(y, a))
  }
}
