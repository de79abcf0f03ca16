/** Safety of two conforming 104 drivers over every run: every step keeps the invariant, and what follows. */
module PeersSafety {
  import opened Octets
  import opened Collecting
  import opened Apci
  import opened Connection
  import opened SendWindow
  import opened DataFlow
  import opened Handshake
  import opened PeerLinks
  import opened TwoPeers

  /** A reception before STOPDT con is considered. */
  function Unreleased(c: Config, r: State, a: Apdu): Effect {
    match a
    case I(s, n, asdu) => OnInformation(c, r, s, n, asdu)
    case S(n) => OnSupervisory(r, n)
    case U(f) => OnUnnumbered(r, f)
  }

  lemma UnreleasedLinks(c: Config, o: State, r: State, oTx: seq<Payload>, oRx: seq<Payload>,
                        rTx: seq<Payload>, rRx: seq<Payload>, inb: Channel, outb: Channel)
    requires Links(o, r, oTx, oRx, rTx, rRx, inb, outb) && c.Valid() && Unacknowledged(r) < c.w
    requires inb != [] && !r.closed
    requires inb[0].I? ==> r.role.Master? || r.active
    ensures var e := Unreleased(c, r, inb[0]);
      !e.d.closed && Links(o, e.d, oTx, oRx, rTx, rRx + e.accepted, inb[1..], outb + e.out)
  {
    if inb[0].I? {
      InformationLinks(c, o, r, oTx, oRx, rTx, rRx, inb, outb);
    } else if inb[0].S? {
      SupervisoryLinks(o, r, oTx, oRx, rTx, rRx, inb, outb);
      assert outb + [] == outb && rRx + [] == rRx;
    } else {
      UnnumberedLinks(o, r, oTx, oRx, rTx, rRx, inb, outb);
      assert rRx + [] == rRx;
    }
  }

  lemma {:induction false} NoDataNoPayloads(out: seq<Apdu>)
    requires NoData(out)
    ensures Payloads(out) == []
  {
    if out != [] {
      assert !IsData(out[0]);
      forall i | 0 <= i < |out[1..]| ensures !IsData(out[1..][i]) { assert !IsData(out[i + 1]); }
      NoDataNoPayloads(out[1..]);
    }
  }

  lemma CarriedJoin(a: Channel, b: Channel)
    requires Carried(a) && (forall i :: 0 <= i < |b| ==> WellFormed(b[i]))
    ensures Carried(a + b)
  {
  }

  lemma CarriedRest(a: Channel)
    requires Carried(a) && a != []
    ensures Carried(a[1..]) && WellFormed(a[0])
  {
  }

  /** The octets in flight are parsed back to the frame that was built. */
  lemma ArrivesAsBuilt(c: Config, r: State, a: Apdu)
    requires WellFormed(a)
    ensures Receive(c, r, OnTheWire(a)) == OnApdu(c, r, a) == ReleaseStopCon(Unreleased(c, r, a))
  {
    ParseEncode(a);
  }

  // ---- sending, requests and ticks ----

  lemma MasterSendsKeeps(c: Peers, y: System, asdu: Payload)
    requires c.Valid() && Invariant(c, y) && Enabled(c, y, MasterSends(asdu))
    ensures Invariant(c, Step(c, y, MasterSends(asdu)))
  {
    var e := Transmit(c.master, y.m, asdu);
    TransmitKeepsValid(c.master, y.m, asdu);
    TransmitLinks(c.master, y.s, y.m, y.sTx, y.sRx, y.mTx, y.mRx, y.toMaster, y.toStation, asdu);
    assert Payloads(e.out) == [asdu];
    assert y.mRx + [] == y.mRx;
    MasterSendsData(y, Step(c, y, MasterSends(asdu)), e.out[0]);
    CarriedJoin(y.toStation, e.out);
  }

  lemma StationSendsKeeps(c: Peers, y: System, asdu: Payload)
    requires c.Valid() && Invariant(c, y) && Enabled(c, y, StationSends(asdu))
    ensures Invariant(c, Step(c, y, StationSends(asdu)))
  {
    var e := Transmit(c.station, y.s, asdu);
    TransmitKeepsValid(c.station, y.s, asdu);
    TransmitLinks(c.station, y.m, y.s, y.mTx, y.mRx, y.sTx, y.sRx, y.toStation, y.toMaster, asdu);
    assert Payloads(e.out) == [asdu];
    assert y.sRx + [] == y.sRx;
    StationSendsData(y, Step(c, y, StationSends(asdu)), e.out[0]);
    CarriedJoin(y.toMaster, e.out);
  }

  lemma RequestKeeps(c: Peers, y: System, ctrl: Ctrl)
    requires c.Valid() && Invariant(c, y) && Enabled(c, y, Request(ctrl)) && Allowed(y, Request(ctrl))
    ensures Invariant(c, Step(c, y, Request(ctrl)))
  {
    var e := Control(y.m, ctrl);
    ControlSent(y.s, y.m, e.d, y.sTx, y.sRx, y.mTx, y.mRx, y.toMaster, y.toStation, e.out[0]);
    assert Payloads(e.out) == [];
    assert y.mRx + [] == y.mRx && y.mTx + [] == y.mTx;
    Requested(y, Step(c, y, Request(ctrl)), ctrl);
    CarriedJoin(y.toStation, e.out);
  }

  lemma TickIsQuiet(r: Role, d: State, t: Clock)
    requires !t.confirmOverdue && !t.oldestOverdue
    ensures var e := Tick(d, t);
      && e.accepted == [] && Payloads(e.out) == []
      && (forall i :: 0 <= i < |e.out| ==> Neutral(r, e.out[i]) && WellFormed(e.out[i]))
      && e.d == d.(ackNoRcv := e.d.ackNoRcv) && (e.d.ackNoRcv == d.ackNoRcv || e.d.ackNoRcv == d.seqNoRcv)
  {
    var e := Tick(d, t);
    assert NoData(e.out);
    NoDataNoPayloads(e.out);
  }

  lemma MasterTickKeeps(c: Peers, y: System, t: Clock)
    requires c.Valid() && Invariant(c, y) && Enabled(c, y, MasterTick(t))
    ensures Invariant(c, Step(c, y, MasterTick(t)))
  {
    var e := Tick(y.m, t);
    TickIsQuiet(Controlled, y.m, t);
    TickLinks(y.s, y.m, y.sTx, y.sRx, y.mTx, y.mRx, y.toMaster, y.toStation, t);
    assert y.mRx + [] == y.mRx && y.mTx + [] == y.mTx;
    AppendedNeutral(Controlled, y.s.active, y.toStation, e.out);
    Undisturbed(y, Step(c, y, MasterTick(t)));
    CarriedJoin(y.toStation, e.out);
  }

  lemma StationTickKeeps(c: Peers, y: System, t: Clock)
    requires c.Valid() && Invariant(c, y) && Enabled(c, y, StationTick(t))
    ensures Invariant(c, Step(c, y, StationTick(t)))
  {
    var e := Tick(y.s, t);
    TickIsQuiet(Master, y.s, t);
    TickLinks(y.m, y.s, y.mTx, y.mRx, y.sTx, y.sRx, y.toStation, y.toMaster, t);
    assert y.sRx + [] == y.sRx && y.sTx + [] == y.sTx;
    AppendedNeutral(Master, y.m.active, y.toMaster, e.out);
    Undisturbed(y, Step(c, y, StationTick(t)));
    CarriedJoin(y.toMaster, e.out);
  }

  // ---- reception ----

  /** The role at the other end. */
  function Other(r: Role): Role { if r.Master? then Controlled else Master }

  /** What a reception that asks nothing of its reader may write and change. */
  predicate Shape(r: State, e: Effect) {
    && (forall i :: 0 <= i < |e.out| ==> Neutral(Other(r.role), e.out[i]) && WellFormed(e.out[i])) && NoData(e.out)
    && e.d == r.(ackNoSend := e.d.ackNoSend, pending := e.d.pending, seqNoRcv := e.d.seqNoRcv, ackNoRcv := e.d.ackNoRcv)
  }

  lemma InformationShape(c: Config, r: State, sendSn: SeqNo, recvSn: SeqNo, asdu: seq<byte>)
    requires !OnInformation(c, r, sendSn, recvSn, asdu).d.closed
    ensures Shape(r, OnInformation(c, r, sendSn, recvSn, asdu))
  {
  }

  lemma ReceptionShape(c: Config, r: State, a: Apdu)
    requires Asks(r.role, a).None? && !Unreleased(c, r, a).d.closed
    ensures var e := Unreleased(c, r, a);
      && Shape(r, e)
      && (!a.I? ==> e.d.seqNoRcv == r.seqNoRcv && e.d.ackNoRcv == r.ackNoRcv)
  {
    match a
    case I(s, n, asdu) => InformationShape(c, r, s, n, asdu);
    case S(n) =>
    case U(f) =>
  }

  /** Taking a frame that asks nothing off a channel. */
  lemma Taken(r: Role, active: bool, ch: Channel)
    requires ch != [] && Asks(r, ch[0]).None?
    ensures Ends(r, active, ch[1..]) == Ends(r, active, ch) && Reads(r, ch[1..]) == Reads(r, ch)
    ensures Welcome(r, active, ch) ==> Welcome(r, active, ch[1..])
  {
    CollectCons(ch[0], ch[1..], (a: Apdu) => Asks(r, a));
    assert [ch[0]] + ch[1..] == ch;
  }

  /** The requests the master knows to be unconfirmed once it has taken a frame. */
  function RequestsAfter(requests: seq<Ctrl>, a: Apdu): seq<Ctrl> {
    match Asks(Master, a) case Some(ctrl) => AfterFirst(ctrl, requests) case None => requests
  }

  lemma MasterHandshake(c: Peers, y: System, y': System)
    requires Procedure(y) && y.toMaster != [] && y.m.role.Master?
    requires var e := Unreleased(c.master, y.m, y.toMaster[0]);
      && !e.d.closed
      && y' == ByMaster(y.(toMaster := y.toMaster[1..], requests := RequestsAfter(y.requests, y.toMaster[0])), e)
    ensures Procedure(y')
  {
    var h := y.toMaster[0];
    var e := Unreleased(c.master, y.m, h);
    if Asks(Master, h).Some? {
      assert e.out == [] && e.accepted == [];
      assert y.toStation + [] == y.toStation;
      var y0 := y.(m := e.d, toMaster := y.toMaster[1..], requests := RequestsAfter(y.requests, h));
      Confirmed(y, y0, Asks(Master, h).value);
      assert y' == y0.(mTx := y'.mTx, mRx := y'.mRx);
      SameProcedure(y0, y');
    } else {
      ReceptionShape(c.master, y.m, h);
      AppendedNeutral(Controlled, y.s.active, y.toStation, e.out);
      Taken(Master, y.m.active, y.toMaster);
      Undisturbed(y, y');
    }
  }

  lemma SameProcedure(y: System, y': System)
    requires Procedure(y) && y' == y.(mTx := y'.mTx, mRx := y'.mRx)
    ensures Procedure(y')
  {
    assert ToCome(y') == ToCome(y);
  }

  /** What a master writes on reception: acknowledgements and test confirmations only. */
  lemma MasterWrites(c: Config, r: State, a: Apdu)
    requires r.role.Master? && !r.stopConPending
    ensures var e := Unreleased(c, r, a);
      Carried(e.out) && Payloads(e.out) == [] && !e.d.stopConPending && e.d.role == r.role
  {
    var e := Unreleased(c, r, a);
    match a
    case I(s, n, asdu) => InformationWrites(c, r, s, n, asdu);
    case S(n) => assert e.out == [];
    case U(f) => assert e.out == (if f == TestFrActive then [U(TestFrConfirm)] else []);
    NoDataNoPayloads(e.out);
  }

  lemma InformationWrites(c: Config, r: State, s: SeqNo, n: SeqNo, asdu: seq<byte>)
    ensures var e := OnInformation(c, r, s, n, asdu);
      && (e.out == [] || (|e.out| == 1 && e.out[0].S?))
      && e.d.stopConPending == r.stopConPending && e.d.role == r.role
  {
  }

  lemma MasterReception(c: Peers, y: System)
    requires c.Valid() && Invariant(c, y) && Enabled(c, y, ToMasterArrives)
    ensures Invariant(c, Step(c, y, ToMasterArrives))
    ensures y.toMaster[0].I? ==> y.m.active
  {
    var h := y.toMaster[0];
    var e := Unreleased(c.master, y.m, h);
    CarriedRest(y.toMaster);
    ArrivesAsBuilt(c.master, y.m, h);
    ApduKeepsValid(c.master, y.m, h);
    UnreleasedLinks(c.master, y.s, y.m, y.sTx, y.sRx, y.mTx, y.mRx, y.toMaster, y.toStation);
    MasterWrites(c.master, y.m, h);
    MasterHandshake(c, y, Step(c, y, ToMasterArrives));
    assert y.mTx + [] == y.mTx;
    CarriedJoin(y.toStation, e.out);
  }

  /** The system after a reception at the station, before STOPDT con is considered. */
  function Received(c: Peers, y: System): System
    requires y.toStation != []
  {
    ByStation(y.(toStation := y.toStation[1..]), Unreleased(c.station, y.s, y.toStation[0]))
  }

  lemma StationHandshake(c: Peers, y: System)
    requires c.Valid() && Invariant(c, y) && Enabled(c, y, ToStationArrives)
    requires !Unreleased(c.station, y.s, y.toStation[0]).d.closed
    ensures Procedure(Received(c, y)) && Received(c, y).sTx == y.sTx
    ensures Carried(Unreleased(c.station, y.s, y.toStation[0]).out)
  {
    var h := y.toStation[0];
    var e := Unreleased(c.station, y.s, h);
    var y' := Received(c, y);
    CarriedRest(y.toStation);
    assert y.sTx + [] == y.sTx && y.sRx + [] == y.sRx;
    if Asks(Controlled, h).Some? {
      assert NoData(e.out);
      NoDataNoPayloads(e.out);
      if h.fun == StartDtActive {
        StationStarted(y, y');
      } else {
        StationStopping(y, y', e.out);
      }
    } else {
      ReceptionShape(c.station, y.s, h);
      NoDataNoPayloads(e.out);
      AppendedNeutral(Master, y.m.active, y.toMaster, e.out);
      Taken(Controlled, y.s.active, y.toStation);
      Undisturbed(y, y');
    }
  }

  /** What holds at the station when it confirms a stop. */
  predicate StopConfirmed(y: System) {
    && y.mRx == y.sTx && Drained(y.s) && !y.s.active
    && (StartDt !in Reads(Controlled, y.toStation) ==> y.sRx == y.mTx)
  }

  /** A reception at the station keeps the invariant, and a stop it confirms is complete. */
  lemma StationReception(c: Peers, y: System)
    requires c.Valid() && Invariant(c, y) && Enabled(c, y, ToStationArrives)
    ensures Invariant(c, Step(c, y, ToStationArrives))
    ensures y.toStation[0].I? ==> y.s.active
    ensures U(StopDtConfirm) in Receive(c.station, y.s, OnTheWire(y.toStation[0])).out
            ==> StopConfirmed(Step(c, y, ToStationArrives))
  {
    var h := y.toStation[0];
    var e := Unreleased(c.station, y.s, h);
    var y0, y' := Received(c, y), Step(c, y, ToStationArrives);
    CarriedRest(y.toStation);
    ArrivesAsBuilt(c.station, y.s, h);
    ApduKeepsValid(c.station, y.s, h);
    UnreleasedLinks(c.station, y.m, y.s, y.mTx, y.mRx, y.sTx, y.sRx, y.toStation, y.toMaster);
    StationHandshake(c, y);
    CarriedJoin(y.toMaster, e.out);
    assert Flows(y0);
    ReceivingSendsNoData(c.station, y.s, h);
    NoDataNoPayloads(OnApdu(c.station, y.s, h).out);
    assert y.sTx + [] == y.sTx;
    if y0.s.stopConPending && y0.s.ackNoSend == y0.s.seqNoSend {
      assert y'.toMaster == y0.toMaster + [U(StopDtConfirm)];
      StationStopped(y0, y');
      ReleaseLinks(e, y.m, y.mTx, y.mRx, y.sTx, y.sRx + e.accepted, y.toStation[1..], y.toMaster);
      CarriedJoin(y0.toMaster, [U(StopDtConfirm)]);
    } else {
      NoConfirmUnreleased(c.station, y.s, h);
    }
  }

  lemma NoConfirmUnreleased(c: Config, r: State, a: Apdu)
    ensures U(StopDtConfirm) !in Unreleased(c, r, a).out
  {
  }

  // ---- every run ----

  lemma StepKeeps(c: Peers, y: System, e: Event)
    requires c.Valid() && Invariant(c, y) && Enabled(c, y, e) && Allowed(y, e)
    ensures Invariant(c, Step(c, y, e))
  {
    match e
    case MasterSends(asdu) => MasterSendsKeeps(c, y, asdu);
    case StationSends(asdu) => StationSendsKeeps(c, y, asdu);
    case Request(ctrl) => RequestKeeps(c, y, ctrl);
    case ToStationArrives => StationReception(c, y);
    case ToMasterArrives => MasterReception(c, y);
    case MasterTick(t) => MasterTickKeeps(c, y, t);
    case StationTick(t) => StationTickKeeps(c, y, t);
  }

  lemma StartFlows(c: Peers, y: System)
    requires y == Start(c)
    ensures Flows(y)
  {
    InitialFlow(Master, Controlled);
    InitialFlow(Controlled, Master);
  }

  lemma StartValid(c: Config, role: Role)
    requires c.Valid()
    ensures Valid(c, Initial(role))
  {
    assert Window(0, 0) == [];
  }

  lemma StartUpright(c: Peers, y: System)
    requires c.Valid() && y == Start(c)
    ensures Upright(c, y)
  {
    StartValid(c.master, Master);
    StartValid(c.station, Controlled);
  }

  lemma NothingPicked()
    ensures Subsequence<Ctrl>([], [])
  {
    var none: seq<nat> := [];
    var nothing: seq<Ctrl> := [];
    assert Picks(none, nothing, nothing);
  }

  lemma StartOrderly(c: Peers, y: System)
    requires y == Start(c)
    ensures Procedure(y)
  {
    assert ToCome(y) == [];
    NothingPicked();
    assert Orderly(y) && HeldBack(y);
  }

  lemma StartKeeps(c: Peers, y: System)
    requires c.Valid() && y == Start(c)
    ensures Invariant(c, y)
  {
    StartOrderly(c, y);
    StartUpright(c, y);
    StartFlows(c, y);
  }

  lemma {:induction false} RunFromKeeps(c: Peers, y: System, events: seq<Event>)
    requires c.Valid() && Invariant(c, y) && DisciplinedFrom(c, y, events)
    ensures Invariant(c, RunFrom(c, y, events))
    decreases |events|
  {
    if events != [] {
      if Enabled(c, y, events[0]) { StepKeeps(c, y, events[0]); }
      RunFromKeeps(c, Next(c, y, events[0]), events[1..]);
    }
  }

  lemma RunBegins(c: Peers, events: seq<Event>) returns (y: System)
    requires c.Valid() && Disciplined(c, events)
    ensures Invariant(c, y) && DisciplinedFrom(c, y, events) && RunFrom(c, y, events) == Run(c, events)
  {
    y := Start(c);
    StartKeeps(c, y);
  }

  lemma RunKeeps(c: Peers, events: seq<Event>)
    requires c.Valid() && Disciplined(c, events)
    ensures Invariant(c, Run(c, events))
  {
    var y := RunBegins(c, events);
    RunFromKeeps(c, y, events);
  }

  /**
   Under any interleaving and any number of wraps, and with any requests but a stop behind an
   unconfirmed stop that a start has followed: neither driver ever closes, no I-frame ever reaches a
   stopped peer, and what each side accepted is a prefix of what the other transmitted.
   */
  lemma Safety(c: Peers, events: seq<Event>)
    requires c.Valid() && Disciplined(c, events)
    ensures var y := Run(c, events);
      && !y.m.closed && !y.s.closed
      && y.sRx <= y.mTx && y.mRx <= y.sTx
      && (y.toStation != [] && y.toStation[0].I? ==> y.s.active)
      && (y.toMaster != [] && y.toMaster[0].I? ==> y.m.active)
  {
    var y := Run(c, events);
    RunKeeps(c, events);
    CounterOrder(y.m, y.s, y.mTx, y.sRx, y.toStation, y.toMaster);
    CounterOrder(y.s, y.m, y.sTx, y.mRx, y.toMaster, y.toStation);
  }

  /**
   Whenever the station emits STOPDT con, the master has accepted every I-frame it ever sent and it
   has acknowledged everything it took; and unless a start is already on its way, it has taken every
   I-frame the master ever sent.
   */
  lemma StopDrains(c: Peers, events: seq<Event>)
    requires c.Valid() && Disciplined(c, events)
    requires Enabled(c, Run(c, events), ToStationArrives)
    requires U(StopDtConfirm) in
      Receive(c.station, Run(c, events).s, OnTheWire(Run(c, events).toStation[0])).out
    ensures var y := Step(c, Run(c, events), ToStationArrives);
      && y.mRx == y.sTx && Drained(y.s) && !y.s.active
      && (StartDt !in Reads(Controlled, y.toStation) ==> y.sRx == y.mTx)
  {
    RunKeeps(c, events);
    StationReception(c, Run(c, events));
  }

  /**
   The unbounded counters never cross: sender acknowledged, then every acknowledgement in flight in
   turn, then receiver acknowledged, then received, then sent; and the receiver owes fewer than w.
   */
  lemma CountersOrdered(c: Peers, events: seq<Event>)
    requires c.Valid() && Disciplined(c, events)
    ensures var y := Run(c, events);
      && 0 <= Acked(y.m, y.mTx) <= Owed(y.s, y.sRx) <= |y.sRx| <= |y.mTx| <= Acked(y.m, y.mTx) + c.master.k
      && 0 <= Acked(y.s, y.sTx) <= Owed(y.m, y.mRx) <= |y.mRx| <= |y.sTx| <= Acked(y.s, y.sTx) + c.station.k
      && |y.sRx| - Owed(y.s, y.sRx) < c.station.w && |y.mRx| - Owed(y.m, y.mRx) < c.master.w
      && Ascending(Acked(y.m, y.mTx), AckValues(Acked(y.m, y.mTx), y.toMaster), Owed(y.s, y.sRx))
      && Ascending(Acked(y.s, y.sTx), AckValues(Acked(y.s, y.sTx), y.toStation), Owed(y.m, y.mRx))
  {
    var y := Run(c, events);
    RunKeeps(c, events);
    CounterOrder(y.m, y.s, y.mTx, y.sRx, y.toStation, y.toMaster);
    CounterOrder(y.s, y.m, y.sTx, y.mRx, y.toMaster, y.toStation);
    AcksAscend(Acked(y.m, y.mTx), y.toMaster);
    AcksAscend(Acked(y.s, y.sTx), y.toStation);
  }

  const ACK_DUE: Clock := Clock(false, false, true, false)

  /**
   Flow control never wedges the master: with frames outstanding and both channels empty, the
   station's tick is enabled to acknowledge, and delivering that acknowledgement empties the window.
   */
  lemma MasterWindowReopens(c: Peers, events: seq<Event>)
    requires c.Valid() && Disciplined(c, events)
    requires var y := Run(c, events);
      y.toStation == [] && y.toMaster == [] && y.m.ackNoSend != y.m.seqNoSend
    ensures var y := Run(c, events + [StationTick(ACK_DUE), ToMasterArrives]);
      y.mTx == Run(c, events).mTx == y.sRx && InFlight(y.m) == 0 && y.m.pending == []
  {
    RunKeeps(c, events);
    RunFromTwo(c, Start(c), events, StationTick(ACK_DUE), ToMasterArrives);
    MasterReopens(c, Run(c, events));
  }

  lemma MasterReopens(c: Peers, y: System)
    requires c.Valid() && Invariant(c, y)
    requires y.toStation == [] && y.toMaster == [] && y.m.ackNoSend != y.m.seqNoSend
    ensures var y2 := Next(c, Next(c, y, StationTick(ACK_DUE)), ToMasterArrives);
      y2.mTx == y.mTx == y2.sRx && InFlight(y2.m) == 0 && y2.m.pending == []
  {
    CounterOrder(y.m, y.s, y.mTx, y.sRx, y.toStation, y.toMaster);
    assert Owed(y.s, y.sRx) == Acked(y.m, y.mTx);
    var y1 := Step(c, y, StationTick(ACK_DUE));
    StepKeeps(c, y, StationTick(ACK_DUE));
    assert y1.toMaster == [S(y.s.seqNoRcv)];
    MasterAcknowledged(c, y1, y.s.seqNoRcv);
  }

  lemma MasterAcknowledged(c: Peers, y: System, n: SeqNo)
    requires c.Valid() && Invariant(c, y)
    requires y.toStation == [] && y.toMaster == [S(n)] && n == y.s.seqNoRcv == y.s.ackNoRcv
    ensures var y' := Next(c, y, ToMasterArrives);
      y'.mTx == y.mTx == y'.sRx && InFlight(y'.m) == 0 && y'.m.pending == []
  {
    CounterOrder(y.m, y.s, y.mTx, y.sRx, y.toStation, y.toMaster);
    ArrivesAsBuilt(c.master, y.m, S(n));
    StepKeeps(c, y, ToMasterArrives);
    var y' := Step(c, y, ToMasterArrives);
    assert y'.m.ackNoSend == n == y'.m.seqNoSend;
  }

  lemma StationWindowReopens(c: Peers, events: seq<Event>)
    requires c.Valid() && Disciplined(c, events)
    requires var y := Run(c, events);
      y.toStation == [] && y.toMaster == [] && y.s.ackNoSend != y.s.seqNoSend
    ensures var y := Run(c, events + [MasterTick(ACK_DUE), ToStationArrives]);
      y.sTx == Run(c, events).sTx == y.mRx && InFlight(y.s) == 0 && y.s.pending == []
  {
    RunKeeps(c, events);
    RunFromTwo(c, Start(c), events, MasterTick(ACK_DUE), ToStationArrives);
    StationReopens(c, Run(c, events));
  }

  lemma StationReopens(c: Peers, y: System)
    requires c.Valid() && Invariant(c, y)
    requires y.toStation == [] && y.toMaster == [] && y.s.ackNoSend != y.s.seqNoSend
    ensures var y2 := Next(c, Next(c, y, MasterTick(ACK_DUE)), ToStationArrives);
      y2.sTx == y.sTx == y2.mRx && InFlight(y2.s) == 0 && y2.s.pending == []
  {
    CounterOrder(y.s, y.m, y.sTx, y.mRx, y.toMaster, y.toStation);
    assert Owed(y.m, y.mRx) == Acked(y.s, y.sTx);
    var y1 := Step(c, y, MasterTick(ACK_DUE));
    StepKeeps(c, y, MasterTick(ACK_DUE));
    assert y1.toStation == [S(y.m.seqNoRcv)];
    StationAcknowledged(c, y1, y.m.seqNoRcv);
  }

  lemma StationAcknowledged(c: Peers, y: System, n: SeqNo)
    requires c.Valid() && Invariant(c, y)
    requires y.toMaster == [] && y.toStation == [S(n)] && n == y.m.seqNoRcv == y.m.ackNoRcv
    ensures var y' := Next(c, y, ToStationArrives);
      y'.sTx == y.sTx == y'.mRx && InFlight(y'.s) == 0 && y'.s.pending == []
  {
    CounterOrder(y.s, y.m, y.sTx, y.mRx, y.toMaster, y.toStation);
    ArrivesAsBuilt(c.station, y.s, S(n));
    StepKeeps(c, y, ToStationArrives);
    var y' := Step(c, y, ToStationArrives);
    assert y'.s.ackNoSend == n == y'.s.seqNoSend;
  }

  lemma {:induction false} RunFromTwo(c: Peers, y: System, events: seq<Event>, e1: Event, e2: Event)
    ensures RunFrom(c, y, events + [e1, e2]) == Next(c, Next(c, RunFrom(c, y, events), e1), e2)
    decreases |events|
  {
    if events == [] {
      assert events + [e1, e2] == [e1, e2];
      assert [e1, e2][1..] == [e2];
      assert RunFrom(c, Next(c, y, e1), [e2]) == Next(c, Next(c, y, e1), e2);
    } else {
      assert (events + [e1, e2])[1..] == events[1..] + [e1, e2];
      RunFromTwo(c, Next(c, y, events[0]), events[1..], e1, e2);
    }
  }
}
