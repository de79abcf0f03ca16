/**
 Two 104 drivers, a master and a controlled station, connected by two FIFO channels.

 An event is one turn of either loop. Only the master requests STARTDT and STOPDT, and no
 acknowledgement timer t1 expires. Everything else is arbitrary, including overlapping requests, the
 order of events and the number of sequence wraps. A confirmation answers the oldest request of its
 kind, and every request before that one with it.
 */
module TwoPeers {
  import opened Octets
  import opened Collecting
  import opened Apci
  import opened Connection
  import opened SendWindow
  import opened DataFlow
  import opened Handshake
  import opened PeerLinks

  datatype System = System(
    m: State, s: State,                             // master, controlled station
    toStation: Channel, toMaster: Channel,
    mTx: seq<Payload>, mRx: seq<Payload>,           // what the master transmitted and accepted
    sTx: seq<Payload>, sRx: seq<Payload>,
    requests: seq<Ctrl>                             // the requests not known to be confirmed, oldest first
  )

  datatype Peers = Peers(master: Config, station: Config) {
    predicate Valid() { master.Valid() && station.Valid() }
  }

  datatype Event =
    | MasterSends(asdu: Payload)
    | StationSends(asdu: Payload)
    | Request(ctrl: Ctrl)
    | ToStationArrives
    | ToMasterArrives
    | MasterTick(t: Clock)
    | StationTick(t: Clock)

  function Start(c: Peers): System {
    System(Initial(Master), Initial(Controlled), [], [], [], [], [], [], [])
  }

  predicate Enabled(c: Peers, y: System, e: Event) {
    match e
    case MasterSends(asdu) => MaySend(c.master, y.m) && Sendable(asdu)
    case StationSends(asdu) => MaySend(c.station, y.s) && Sendable(asdu)
    case Request(_) => !y.m.closed
    case ToStationArrives => !y.s.closed && y.toStation != []
    case ToMasterArrives => !y.m.closed && y.toMaster != []
    case MasterTick(t) => !y.m.closed && !t.confirmOverdue && !t.oldestOverdue
    case StationTick(t) => !y.s.closed && !t.confirmOverdue && !t.oldestOverdue
  }

  function ByMaster(y: System, e: Effect): System {
    y.(m := e.d, toStation := y.toStation + e.out, mTx := y.mTx + Payloads(e.out), mRx := y.mRx + e.accepted)
  }

  function ByStation(y: System, e: Effect): System {
    y.(s := e.d, toMaster := y.toMaster + e.out, sTx := y.sTx + Payloads(e.out), sRx := y.sRx + e.accepted)
  }

  /** The octets of a frame in flight; every frame in flight is one a constructor built. */
  function OnTheWire(a: Apdu): seq<byte> { if WellFormed(a) then Encode(a) else [] }

  function Step(c: Peers, y: System, e: Event): System
    requires Enabled(c, y, e)
  {
    match e
    case MasterSends(asdu) => ByMaster(y, Transmit(c.master, y.m, asdu))
    case StationSends(asdu) => ByStation(y, Transmit(c.station, y.s, asdu))
    case Request(ctrl) => ByMaster(y.(requests := y.requests + [ctrl]), Control(y.m, ctrl))
    case ToStationArrives =>
      ByStation(y.(toStation := y.toStation[1..]), Receive(c.station, y.s, OnTheWire(y.toStation[0])))
    case ToMasterArrives =>
      var y' := ByMaster(y.(toMaster := y.toMaster[1..]), Receive(c.master, y.m, OnTheWire(y.toMaster[0])));
      (match Asks(Master, y.toMaster[0])
       case Some(ctrl) => y'.(requests := AfterFirst(ctrl, y.requests))
       case None => y')
    case MasterTick(t) => ByMaster(y, Tick(y.m, t))
    case StationTick(t) => ByStation(y, Tick(y.s, t))
  }

  /** An event that is not enabled does not happen. */
  function Next(c: Peers, y: System, e: Event): System {
    if Enabled(c, y, e) then Step(c, y, e) else y
  }

  function RunFrom(c: Peers, y: System, events: seq<Event>): System
    decreases |events|
  {
    if events == [] then y else RunFrom(c, Next(c, y, events[0]), events[1..])
  }

  /** The system after a run from the start of the connection. */
  function Run(c: Peers, events: seq<Event>): System {
    RunFrom(c, Start(c), events)
  }

  /**
   The rule for requests, which the caller can check: a stop is not requested while an earlier stop
   that a start has followed is unconfirmed. Starts may be requested at any time.
   */
  ghost predicate Allowed(y: System, e: Event) {
    e == Request(StopDt) ==> !Reopens(y.requests)
  }

  ghost predicate DisciplinedFrom(c: Peers, y: System, events: seq<Event>)
    decreases |events|
  {
    events == [] || (Allowed(y, events[0]) && DisciplinedFrom(c, Next(c, y, events[0]), events[1..]))
  }

  ghost predicate Disciplined(c: Peers, events: seq<Event>) { DisciplinedFrom(c, Start(c), events) }

  // ---- the STARTDT/STOPDT procedure ----

  /** The confirmations still to come, in order: on their way, held back, and to be given. */
  function ToCome(y: System): seq<Ctrl> {
    Reads(Master, y.toMaster) + (if y.s.stopConPending then [StopDt] else []) + Reads(Controlled, y.toStation)
  }

  predicate Drained(d: State) { d.ackNoSend == d.seqNoSend && d.ackNoRcv == d.seqNoRcv }

  /** Data always finds an active reader, and a stopped station has acknowledged all it took. */
  predicate Orderly(y: System) {
    && Welcome(Controlled, y.s.active, y.toStation)
    && Welcome(Master, y.m.active, y.toMaster)
    && (y.s.active ==> Ends(Master, y.m.active, y.toMaster))
    && (y.s.stopConPending ==> !y.s.active && y.s.ackNoRcv == y.s.seqNoRcv)
  }

  /**
   While the station is stopped, or will be once it has read its channel, the master is kept from
   sending: it is stopping and no stop confirmation comes before a start confirmation, or it is
   stopped and no start confirmation comes at all.
   */
  ghost predicate HeldBack(y: System) {
    Ends(Controlled, y.s.active, y.toStation)
    || (y.m.stopping && !Reopens(ToCome(y)))
    || (!y.m.stopping && !y.m.active && StartDt !in ToCome(y))
  }

  ghost predicate Procedure(y: System) {
    Orderly(y) && HeldBack(y) && Subsequence(ToCome(y), y.requests)
  }

  ghost predicate Flows(y: System) {
    && Flow(y.m, y.s, y.mTx, y.sRx, y.toStation, y.toMaster)
    && Flow(y.s, y.m, y.sTx, y.mRx, y.toMaster, y.toStation)
  }

  predicate Upright(c: Peers, y: System) {
    && y.m.role == Master && y.s.role == Controlled
    && !y.m.closed && !y.s.closed && !y.m.stopConPending
    && Valid(c.master, y.m) && Valid(c.station, y.s)
    && Carried(y.toStation) && Carried(y.toMaster)
  }

  /** What every step keeps. */
  ghost predicate Invariant(c: Peers, y: System) {
    Upright(c, y) && Flows(y) && Procedure(y)
  }

  // ---- every step keeps the procedure ----

  /** A step that starts and stops nothing. */
  lemma Undisturbed(y: System, y': System)
    requires Procedure(y)
    requires y'.requests == y.requests
    requires y'.m.active == y.m.active && y'.m.stopping == y.m.stopping
    requires y'.s.active == y.s.active && y'.s.stopConPending == y.s.stopConPending
    requires Ends(Controlled, y.s.active, y'.toStation) == Ends(Controlled, y.s.active, y.toStation)
    requires Ends(Master, y.m.active, y'.toMaster) == Ends(Master, y.m.active, y.toMaster)
    requires Welcome(Controlled, y.s.active, y'.toStation) && Welcome(Master, y.m.active, y'.toMaster)
    requires Reads(Controlled, y'.toStation) == Reads(Controlled, y.toStation)
    requires Reads(Master, y'.toMaster) == Reads(Master, y.toMaster)
    requires !y.s.active && y.s.ackNoRcv == y.s.seqNoRcv ==> y'.s.ackNoRcv == y'.s.seqNoRcv
    ensures Procedure(y')
  {
    assert ToCome(y') == ToCome(y);
  }

  lemma MasterSendsData(y: System, y': System, a: Apdu)
    requires Procedure(y) && y.m.active && !y.m.stopping && a.I?
    requires y' == y.(m := y'.m, toStation := y.toStation + [a], mTx := y'.mTx)
    requires y'.m.active && !y'.m.stopping
    ensures Procedure(y')
  {
    Appended(Controlled, y.s.active, y.toStation, a);
    ReadsAppend(Controlled, y.toStation, a);
    assert Reads(Controlled, y.toStation) + [] == Reads(Controlled, y.toStation);
    Undisturbed(y, y');
  }

  lemma StationSendsData(y: System, y': System, a: Apdu)
    requires Procedure(y) && y.s.active && a.I?
    requires y' == y.(s := y'.s, toMaster := y.toMaster + [a], sTx := y'.sTx)
    requires y'.s.active && y'.s.stopConPending == y.s.stopConPending
    ensures Procedure(y')
  {
    Appended(Master, y.m.active, y.toMaster, a);
    ReadsAppend(Master, y.toMaster, a);
    assert Reads(Master, y.toMaster) + [] == Reads(Master, y.toMaster);
    Undisturbed(y, y');
  }

  lemma Requested(y: System, y': System, ctrl: Ctrl)
    requires Procedure(y) && Allowed(y, Request(ctrl))
    requires y' == y.(requests := y.requests + [ctrl], m := Control(y.m, ctrl).d, toStation := y.toStation + Control(y.m, ctrl).out)
    ensures Procedure(y')
  {
    var a := Control(y.m, ctrl).out[0];
    Appended(Controlled, y.s.active, y.toStation, a);
    ReadsAppend(Controlled, y.toStation, a);
    var k := ToCome(y);
    assert Asks(Controlled, a) == Some(ctrl);
    assert ToCome(y') == k + [ctrl];
    SubsequenceAppend(k, y.requests, ctrl);
    SubsequenceReopens(k, y.requests);
    StopAppended(k);
    assert Orderly(y');
    assert HeldBack(y');
  }

  /** A confirmation comes in; it is the first one to come. */
  lemma Confirmed(y: System, y': System, ctrl: Ctrl)
    requires Procedure(y) && y.toMaster != [] && Asks(Master, y.toMaster[0]) == Some(ctrl)
    requires y' == y.(m := OnUnnumbered(y.m, y.toMaster[0].fun).d, toMaster := y.toMaster[1..],
                      requests := AfterFirst(ctrl, y.requests))
    requires y.m.role.Master?
    ensures Procedure(y')
  {
    CollectCons(y.toMaster[0], y.toMaster[1..], (a: Apdu) => Asks(Master, a));
    assert [y.toMaster[0]] + y.toMaster[1..] == y.toMaster;
    assert ToCome(y) == [ctrl] + ToCome(y');
    SubsequenceTake(ctrl, ToCome(y'), y.requests);
    Later(ctrl, ToCome(y'));
    AfterStop(ToCome(y'));
  }

  /** What is asked of the station behind the frame it takes. */
  lemma StationTakes(y: System)
    requires y.toStation != []
    ensures Reads(Controlled, y.toStation)
            == (match Asks(Controlled, y.toStation[0]) case Some(ctrl) => [ctrl] case None => [])
               + Reads(Controlled, y.toStation[1..])
  {
    CollectCons(y.toStation[0], y.toStation[1..], (a: Apdu) => Asks(Controlled, a));
    assert [y.toStation[0]] + y.toStation[1..] == y.toStation;
  }

  /** Fewer confirmations to come, everything else alike. */
  lemma FewerToCome(y: System, y': System, a: seq<Ctrl>, b: seq<Ctrl>, pending: bool)
    requires HeldBack(y) && Subsequence(ToCome(y), y.requests) && y'.requests == y.requests && y'.m == y.m
    requires Ends(Controlled, y'.s.active, y'.toStation) == Ends(Controlled, y.s.active, y.toStation)
    requires ToCome(y) == a + (if pending then [StopDt] else []) + b && ToCome(y') == a + b
    ensures HeldBack(y') && Subsequence(ToCome(y'), y'.requests)
  {
    if pending {
      Dropped(a, StopDt, b);
      SubsequenceDrop(a, StopDt, b, y.requests);
    } else {
      assert a + [] + b == a + b;
    }
  }

  lemma StationStarted(y: System, y': System)
    requires Procedure(y) && y.toStation != [] && y.toStation[0] == U(StartDtActive)
    requires y' == y.(s := y'.s, toStation := y.toStation[1..], toMaster := y.toMaster + [U(StartDtConfirm)])
    requires y'.s.active && !y'.s.stopConPending
    ensures Procedure(y')
  {
    Appended(Master, y.m.active, y.toMaster, U(StartDtConfirm));
    ReadsAppend(Master, y.toMaster, U(StartDtConfirm));
    StationTakes(y);
    FewerToCome(y, y', Reads(Master, y.toMaster), Reads(Controlled, y.toStation), y.s.stopConPending);
  }

  lemma StationStopping(y: System, y': System, out: Channel)
    requires Procedure(y) && y.toStation != [] && y.toStation[0] == U(StopDtActive)
    requires y' == y.(s := y'.s, toStation := y.toStation[1..], toMaster := y.toMaster + out)
    requires forall i :: 0 <= i < |out| ==> Neutral(Master, out[i])
    requires !y'.s.active && y'.s.stopConPending && y'.s.ackNoRcv == y'.s.seqNoRcv
    ensures Procedure(y')
  {
    AppendedNeutral(Master, y.m.active, y.toMaster, out);
    StationTakes(y);
    FewerToCome(y, y', Reads(Master, y.toMaster), Reads(Controlled, y.toStation), y.s.stopConPending);
  }

  /** The station confirms the stop: nothing it sent can still be on its way. */
  lemma StationStopped(y: System, y': System)
    requires Procedure(y) && Flows(y) && y.s.stopConPending && y.s.ackNoSend == y.s.seqNoSend
    requires y' == y.(s := y.s.(stopConPending := false), toMaster := y.toMaster + [U(StopDtConfirm)])
    ensures Procedure(y') && Drained(y'.s) && !y'.s.active
    ensures y.mRx == y.sTx
    ensures StartDt !in Reads(Controlled, y.toStation) ==> y.sRx == y.mTx
  {
    CounterOrder(y.s, y.m, y.sTx, y.mRx, y.toMaster, y.toStation);
    assert |y.mRx| == |y.sTx|;
    if StartDt !in Reads(Controlled, y.toStation) {
      StoppedIsEmpty(Controlled, y.toStation);
      assert y.mTx == y.sRx + Payloads(y.toStation);
    }
    Appended(Master, y.m.active, y.toMaster, U(StopDtConfirm));
    ReadsAppend(Master, y.toMaster, U(StopDtConfirm));
    assert ToCome(y') == ToCome(y);
  }
}
