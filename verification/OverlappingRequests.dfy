/**
 Requests that overlap: exactly when a master may send, and the run of two peers that ends with the
 station closing because a stop was requested behind an unconfirmed stop that a start had followed.
 */
module OverlappingRequests {
  import opened Octets
  import opened Collecting
  import opened Apci
  import opened Connection
  import opened SendWindow
  import opened DataFlow
  import opened Handshake
  import opened PeerLinks
  import opened TwoPeers
  import opened PeersSafety
  import DR = DriverRuns

  // ---- one master, any peer ----

  /** The confirmation an event brings in, if any. */
  function Confirmation(e: DR.Event): Option<Ctrl> {
    if !e.Arrive? then None
    else match Parse(e.frame) case Err(_) => None case Ok(a) => Asks(Master, a)
  }

  /** The stopping flag, from the requests and the stop confirmations alone. */
  function Held(stopping: bool, es: seq<DR.Event>): bool
    decreases |es|
  {
    if es == [] then stopping
    else
      Held(if es[0].Command? then es[0].ctrl.StopDt? else if Confirmation(es[0]) == Some(StopDt) then false else stopping,
           es[1..])
  }

  /** The active flag, from the confirmations alone. */
  function Started(active: bool, es: seq<DR.Event>): bool
    decreases |es|
  {
    if es == [] then active
    else Started(match Confirmation(es[0]) case Some(ctrl) => ctrl.StartDt? case None => active, es[1..])
  }

  lemma {:induction false} ClosedForGood(c: Config, d: State, es: seq<DR.Event>)
    requires d.closed
    ensures DR.Run(c, d, es) == d
    decreases |es|
  {
    if es != [] { ClosedForGood(c, d, es[1..]); }
  }

  lemma StepFlags(c: Config, d: State, e: DR.Event)
    requires d.role.Master? && !DR.Step(c, d, e).d.closed
    ensures var d' := DR.Step(c, d, e).d;
      && d'.role == d.role
      && d'.stopping == Held(d.stopping, [e]) && d'.active == Started(d.active, [e])
  {
    if e.Arrive? && Parse(e.frame).Ok? {
      ReceptionFlags(c, d, Parse(e.frame).value);
    }
  }

  lemma InformationFlags(c: Config, d: State, s: SeqNo, r: SeqNo, asdu: seq<byte>)
    ensures var d' := OnInformation(c, d, s, r, asdu).d;
      d'.stopping == d.stopping && d'.active == d.active && d'.role == d.role
  {
  }

  lemma SupervisoryFlags(d: State, r: SeqNo)
    ensures var d' := OnSupervisory(d, r).d;
      d'.stopping == d.stopping && d'.active == d.active && d'.role == d.role
  {
  }

  lemma UnnumberedFlags(d: State, f: UFunction)
    requires d.role.Master?
    ensures var d' := OnUnnumbered(d, f).d;
      && d'.role == d.role
      && d'.stopping == (d.stopping && Asks(Master, U(f)) != Some(StopDt))
      && d'.active == After(Master, d.active, U(f))
  {
  }

  lemma ReceptionFlags(c: Config, d: State, a: Apdu)
    requires d.role.Master? && !OnApdu(c, d, a).d.closed
    ensures var d' := OnApdu(c, d, a).d;
      && d'.role == d.role
      && d'.stopping == (d.stopping && Asks(Master, a) != Some(StopDt))
      && d'.active == After(Master, d.active, a)
  {
    match a
    case I(s, r, asdu) => InformationFlags(c, d, s, r, asdu);
    case S(r) =>
      SupervisoryFlags(d, r);
    case U(f) => UnnumberedFlags(d, f);
  }

  /**
   Exactly when a master may send, after any run against any peer that leaves it open: its latest
   start or stop confirmation was a start, no stop has been requested since the latest start request
   or stop confirmation, and the window is open.
   */
  lemma {:induction false} MasterMaySendExactly(c: Config, d: State, es: seq<DR.Event>)
    requires d.role.Master? && !DR.Run(c, d, es).closed
    ensures var d' := DR.Run(c, d, es);
      && d'.stopping == Held(d.stopping, es) && d'.active == Started(d.active, es)
      && (MaySend(c, d') <==> Started(d.active, es) && !Held(d.stopping, es) && InFlight(d') < c.k)
    decreases |es|
  {
    if es != [] {
      var d1 := DR.Step(c, d, es[0]).d;
      if d1.closed { ClosedForGood(c, d1, es[1..]); }
      StepFlags(c, d, es[0]);
      MasterMaySendExactly(c, d1, es[1..]);
    }
  }

  function Confirmations(es: seq<DR.Event>): seq<Ctrl> { Collect(es, Confirmation) }

  /** Without further requests the flags follow from the confirmations. */
  lemma {:induction false} FlagsFollow(stopping: bool, active: bool, es: seq<DR.Event>)
    requires forall i :: 0 <= i < |es| ==> !es[i].Command?
    ensures Held(stopping, es) <==> stopping && StopDt !in Confirmations(es)
    ensures var k := Confirmations(es); Started(active, es) == if k == [] then active else k[|k| - 1].StartDt?
    decreases |es|
  {
    if es != [] {
      var held := stopping && Confirmation(es[0]) != Some(StopDt);
      var started := match Confirmation(es[0]) case Some(ctrl) => ctrl.StartDt? case None => active;
      FlagsFollow(held, started, es[1..]);
    }
  }

  /**
   The exact failure. A master that has requested a stop, and nothing since, sends again if and only
   if a stop confirmation has come in since and the latest confirmation is a start: confirmations of
   earlier requests, which it takes for that of its last.
   */
  lemma SendsAgainExactly(c: Config, d: State, es: seq<DR.Event>)
    requires d.role.Master? && d.stopping && !DR.Run(c, d, es).closed
    requires forall i :: 0 <= i < |es| ==> !es[i].Command?
    ensures var d', k := DR.Run(c, d, es), Confirmations(es);
      MaySend(c, d') <==> StopDt in k && k[|k| - 1] == StartDt && InFlight(d') < c.k
  {
    MasterMaySendExactly(c, d, es);
    FlagsFollow(d.stopping, d.active, es);
  }

  // ---- two peers, from the start of the connection ----

  const OPENING: seq<Event> := [Request(StartDt), ToStationArrives, ToMasterArrives]
  const OVERLAP: seq<Event> := [Request(StopDt), Request(StartDt), Request(StopDt)]
  const ANSWERS: seq<Event> := [ToStationArrives, ToStationArrives, ToStationArrives]
  const CONFIRMED: seq<Event> := [ToMasterArrives, ToMasterArrives]

  function Resuming(asdu: Payload): seq<Event> { [MasterSends(asdu), ToStationArrives] }

  /** Both ends in the given modes, with nothing sent yet. */
  function At(active: bool, stopping: bool, station: bool, toStation: Channel, toMaster: Channel, requests: seq<Ctrl>): System {
    System(Initial(Master).(active := active, stopping := stopping), Initial(Controlled).(active := station),
           toStation, toMaster, [], [], [], [], requests)
  }

  lemma {:induction false} RunJoins(c: Peers, y: System, es: seq<Event>, fs: seq<Event>)
    ensures RunFrom(c, y, es + fs) == RunFrom(c, RunFrom(c, y, es), fs)
    decreases |es|
  {
    if es == [] {
      assert es + fs == fs;
    } else {
      assert (es + fs)[1..] == es[1..] + fs;
      RunJoins(c, Next(c, y, es[0]), es[1..], fs);
    }
  }

  lemma RunOne(c: Peers, y: System, e: Event)
    ensures RunFrom(c, y, [e]) == Next(c, y, e)
  {
    assert RunFrom(c, Next(c, y, e), []) == Next(c, y, e);
  }

  lemma RunTwo(c: Peers, y: System, e: Event, f: Event)
    ensures RunFrom(c, y, [e, f]) == Next(c, Next(c, y, e), f)
  {
    RunOne(c, Next(c, y, e), f);
    assert [e, f][1..] == [f];
  }

  lemma RunThree(c: Peers, y: System, e: Event, f: Event, g: Event)
    ensures RunFrom(c, y, [e, f, g]) == Next(c, Next(c, Next(c, y, e), f), g)
  {
    RunTwo(c, Next(c, y, e), f, g);
    assert [e, f, g][1..] == [f, g];
  }

  /** The station takes a control frame while drained: it changes mode and confirms at once. */
  lemma StationAnswers(c: Peers, active: bool, stopping: bool, station: bool, a: UFunction, rest: Channel, toMaster: Channel, requests: seq<Ctrl>)
    requires a in {StartDtActive, StopDtActive}
    ensures Next(c, At(active, stopping, station, [U(a)] + rest, toMaster, requests), ToStationArrives)
            == At(active, stopping, a == StartDtActive, rest,
                  toMaster + [U(if a == StartDtActive then StartDtConfirm else StopDtConfirm)], requests)
  {
    var y := At(active, stopping, station, [U(a)] + rest, toMaster, requests);
    ArrivesAsBuilt(c.station, y.s, U(a));
    assert y.toStation[1..] == rest && y.toStation[0] == U(a);
    var e := Receive(c.station, y.s, OnTheWire(U(a)));
    assert e.d == y.s.(active := a == StartDtActive);
    assert e.out == [U(if a == StartDtActive then StartDtConfirm else StopDtConfirm)] && e.accepted == [];
    assert Payloads(e.out) == [];
  }

  /** The master takes a confirmation. */
  lemma MasterTakes(c: Peers, active: bool, stopping: bool, station: bool, ctrl: Ctrl, rest: Channel, requests: seq<Ctrl>)
    ensures Next(c, At(active, stopping, station, [], [U(if ctrl.StartDt? then StartDtConfirm else StopDtConfirm)] + rest, requests),
                 ToMasterArrives)
            == At(ctrl.StartDt?, stopping && ctrl.StartDt?, station, [], rest, AfterFirst(ctrl, requests))
  {
    var h := U(if ctrl.StartDt? then StartDtConfirm else StopDtConfirm);
    var y := At(active, stopping, station, [], [h] + rest, requests);
    ArrivesAsBuilt(c.master, y.m, h);
    assert y.toMaster[1..] == rest && y.toStation + [] == y.toStation;
  }

  lemma MasterRequests(c: Peers, active: bool, stopping: bool, station: bool, toStation: Channel, requests: seq<Ctrl>, ctrl: Ctrl)
    ensures Next(c, At(active, stopping, station, toStation, [], requests), Request(ctrl))
            == At(active, ctrl.StopDt?, station,
                  toStation + [U(if ctrl.StartDt? then StartDtActive else StopDtActive)], [], requests + [ctrl])
  {
  }

  lemma Opened(c: Peers)
    ensures RunFrom(c, Start(c), OPENING) == At(true, false, true, [], [], [])
  {
    var y := Start(c);
    RunThree(c, y, Request(StartDt), ToStationArrives, ToMasterArrives);
    MasterRequests(c, false, false, false, [], [], StartDt);
    assert [] + [U(StartDtActive)] == [U(StartDtActive)] + [] && [] + [StartDt] == [StartDt];
    StationAnswers(c, false, false, false, StartDtActive, [], [], [StartDt]);
    assert [] + [U(StartDtConfirm)] == [U(StartDtConfirm)] + [];
    MasterTakes(c, false, false, true, StartDt, [], [StartDt]);
  }

  lemma Overlapped(c: Peers)
    ensures RunFrom(c, At(true, false, true, [], [], []), OVERLAP)
            == At(true, true, true, [U(StopDtActive), U(StartDtActive), U(StopDtActive)], [], [StopDt, StartDt, StopDt])
  {
    RunThree(c, At(true, false, true, [], [], []), Request(StopDt), Request(StartDt), Request(StopDt));
    MasterRequests(c, true, false, true, [], [], StopDt);
    MasterRequests(c, true, true, true, [] + [U(StopDtActive)], [] + [StopDt], StartDt);
    MasterRequests(c, true, false, true, [] + [U(StopDtActive)] + [U(StartDtActive)], [] + [StopDt] + [StartDt], StopDt);
    assert [] + [U(StopDtActive)] + [U(StartDtActive)] + [U(StopDtActive)] == [U(StopDtActive), U(StartDtActive), U(StopDtActive)];
    assert [] + [StopDt] + [StartDt] + [StopDt] == [StopDt, StartDt, StopDt];
  }

  lemma Answered(c: Peers)
    ensures RunFrom(c, At(true, true, true, [U(StopDtActive), U(StartDtActive), U(StopDtActive)], [], [StopDt, StartDt, StopDt]), ANSWERS)
            == At(true, true, false, [], [U(StopDtConfirm), U(StartDtConfirm), U(StopDtConfirm)], [StopDt, StartDt, StopDt])
  {
    var q := [StopDt, StartDt, StopDt];
    RunThree(c, At(true, true, true, [U(StopDtActive), U(StartDtActive), U(StopDtActive)], [], q),
             ToStationArrives, ToStationArrives, ToStationArrives);
    assert [U(StopDtActive), U(StartDtActive), U(StopDtActive)] == [U(StopDtActive)] + [U(StartDtActive), U(StopDtActive)];
    StationAnswers(c, true, true, true, StopDtActive, [U(StartDtActive), U(StopDtActive)], [], q);
    assert [] + [U(StopDtConfirm)] == [U(StopDtConfirm)];
    assert [U(StartDtActive), U(StopDtActive)] == [U(StartDtActive)] + [U(StopDtActive)];
    StationAnswers(c, true, true, false, StartDtActive, [U(StopDtActive)], [U(StopDtConfirm)], q);
    assert [U(StopDtConfirm)] + [U(StartDtConfirm)] == [U(StopDtConfirm), U(StartDtConfirm)];
    assert [U(StopDtActive)] == [U(StopDtActive)] + [];
    StationAnswers(c, true, true, true, StopDtActive, [], [U(StopDtConfirm), U(StartDtConfirm)], q);
    assert [U(StopDtConfirm), U(StartDtConfirm)] + [U(StopDtConfirm)] == [U(StopDtConfirm), U(StartDtConfirm), U(StopDtConfirm)];
  }

  lemma FirstTwoConfirmed(c: Peers)
    ensures RunFrom(c, At(true, true, false, [], [U(StopDtConfirm), U(StartDtConfirm), U(StopDtConfirm)], [StopDt, StartDt, StopDt]), CONFIRMED)
            == At(true, false, false, [], [U(StopDtConfirm)], [StopDt])
  {
    RunTwo(c, At(true, true, false, [], [U(StopDtConfirm), U(StartDtConfirm), U(StopDtConfirm)], [StopDt, StartDt, StopDt]),
           ToMasterArrives, ToMasterArrives);
    assert [U(StopDtConfirm), U(StartDtConfirm), U(StopDtConfirm)] == [U(StopDtConfirm)] + [U(StartDtConfirm), U(StopDtConfirm)];
    MasterTakes(c, true, true, false, StopDt, [U(StartDtConfirm), U(StopDtConfirm)], [StopDt, StartDt, StopDt]);
    assert [StopDt, StartDt, StopDt][1..] == [StartDt, StopDt] && [StartDt, StopDt][1..] == [StopDt];
    assert [U(StartDtConfirm), U(StopDtConfirm)] == [U(StartDtConfirm)] + [U(StopDtConfirm)];
    MasterTakes(c, false, false, false, StartDt, [U(StopDtConfirm)], [StartDt, StopDt]);
  }

  lemma ResumedCloses(c: Peers, asdu: Payload)
    requires c.Valid() && Sendable(asdu)
    ensures var y := RunFrom(c, At(true, false, false, [], [U(StopDtConfirm)], [StopDt]), Resuming(asdu));
      y.s.closed && y.mTx == [asdu] && y.sRx == [] && y.requests == [StopDt]
  {
    var y := At(true, false, false, [], [U(StopDtConfirm)], [StopDt]);
    RunTwo(c, y, MasterSends(asdu), ToStationArrives);
    var y1 := Next(c, y, MasterSends(asdu));
    assert y1.toStation == [I(0, 0, asdu)] && y1.mTx == [asdu];
    ArrivesAsBuilt(c.station, y1.s, I(0, 0, asdu));
  }

  /**
   Why the rule is needed: from the start of a connection, start, and once that is confirmed stop,
   start and stop again in one breath. The first two confirmations make the master send while its
   last stop is unconfirmed, and the stopped station closes the connection.
   */
  lemma OverlapCloses(c: Peers, asdu: Payload)
    requires c.Valid() && Sendable(asdu)
    ensures var y := Run(c, OPENING + OVERLAP + ANSWERS + CONFIRMED + Resuming(asdu));
      y.s.closed && y.mTx == [asdu] && y.sRx == [] && y.requests == [StopDt]
  {
    Opened(c);
    Overlapped(c);
    Answered(c);
    FirstTwoConfirmed(c);
    ResumedCloses(c, asdu);
    RunJoins(c, Start(c), OPENING, OVERLAP);
    RunJoins(c, Start(c), OPENING + OVERLAP, ANSWERS);
    RunJoins(c, Start(c), OPENING + OVERLAP + ANSWERS, CONFIRMED);
    RunJoins(c, Start(c), OPENING + OVERLAP + ANSWERS + CONFIRMED, Resuming(asdu));
  }
}
