/** Runs of one 104 driver against an arbitrary peer, which may send any octets at all. */
module DriverRuns {
  import opened Octets
  import opened Apci
  import opened Connection
  import opened SendWindow

  datatype Event =
    | Send(asdu: seq<byte>)
    | Command(ctrl: Ctrl)
    | Arrive(frame: seq<byte>)
    | Timer(t: Clock)

  /** One turn of the loop; an event whose arm is disabled changes nothing. */
  function Step(c: Config, d: State, e: Event): Effect {
    if d.closed then Effect(d, [], [])
    else
      match e
      case Send(asdu) => if MaySend(c, d) then Transmit(c, d, asdu) else Effect(d, [], [])
      case Command(ctrl) => Control(d, ctrl)
      case Arrive(frame) => Receive(c, d, frame)
      case Timer(t) => Tick(d, t)
  }

  function Run(c: Config, d: State, events: seq<Event>): State
    decreases |events|
  {
    if events == [] then d else Run(c, Step(c, d, events[0]).d, events[1..])
  }

  function Output(c: Config, d: State, events: seq<Event>): seq<Apdu>
    decreases |events|
  {
    if events == [] then [] else
      var e := Step(c, d, events[0]);
      e.out + Output(c, e.d, events[1..])
  }

  /**
   After any run, against any peer, `pending` is exactly the consecutive numbers from the oldest
   unconfirmed one, no more than k of them, and fewer than w received frames are unacknowledged.
   */
  lemma {:induction false} WindowInvariant(c: Config, d: State, events: seq<Event>)
    requires Valid(c, d)
    ensures Valid(c, Run(c, d, events))
    decreases |events|
  {
    if events != [] {
      if !d.closed {
        match events[0]
        case Send(asdu) => if MaySend(c, d) { TransmitKeepsValid(c, d, asdu); }
        case Arrive(frame) => if Parse(frame).Ok? { ApduKeepsValid(c, d, Parse(frame).value); }
        case Command(_) =>
        case Timer(_) =>
      }
      WindowInvariant(c, Step(c, d, events[0]).d, events[1..]);
    }
  }

  /** The event that may start data transfer at a station in the given role. */
  predicate Starts(role: Role, e: Event) {
    match role
    case Controlled => e.Arrive? && Parse(e.frame) == Ok(U(StartDtActive))
    case Master => e.Arrive? && Parse(e.frame) == Ok(U(StartDtConfirm))
  }

  lemma StoppedStepIsSilent(c: Config, d: State, e: Event)
    requires !d.active && !Starts(d.role, e)
    ensures NoData(Step(c, d, e).out)
    ensures Step(c, d, e).d.role == d.role && !Step(c, d, e).d.active
  {
    if e.Arrive? && Parse(e.frame).Ok? {
      var a := Parse(e.frame).value;
      ReceivingSendsNoData(c, d, a);
      StaysStopped(c, d, a);
    }
  }

  lemma StaysStopped(c: Config, d: State, a: Apdu)
    requires !d.active
    requires a != U(if d.role.Master? then StartDtConfirm else StartDtActive)
    ensures !OnApdu(c, d, a).d.active
  {
    match a
    case I(s, r, asdu) => assert !OnInformation(c, d, s, r, asdu).d.active;
    case S(r) => assert !OnSupervisory(d, r).d.active;
    case U(f) => assert !OnUnnumbered(d, f).d.active;
  }

  lemma StaysStopping(c: Config, d: State, a: Apdu)
    requires d.role.Master? && d.stopping && a != U(StopDtConfirm)
    ensures OnApdu(c, d, a).d.stopping
  {
    match a
    case I(s, r, asdu) => assert OnInformation(c, d, s, r, asdu).d.stopping;
    case S(r) => assert OnSupervisory(d, r).d.stopping;
    case U(f) => assert OnUnnumbered(d, f).d.stopping;
  }

  /** A stopped station sends no I-frame, whatever happens to it, before the frame that starts it. */
  lemma {:induction false} StoppedStationIsSilent(c: Config, d: State, events: seq<Event>)
    requires !d.active
    requires forall i :: 0 <= i < |events| ==> !Starts(d.role, events[i])
    ensures NoData(Output(c, d, events)) && !Run(c, d, events).active
    decreases |events|
  {
    if events != [] {
      StoppedStepIsSilent(c, d, events[0]);
      StoppedStationIsSilent(c, Step(c, d, events[0]).d, events[1..]);
    }
  }

  predicate EndsStop(e: Event) {
    e == Command(StartDt) || (e.Arrive? && Parse(e.frame) == Ok(U(StopDtConfirm)))
  }

  lemma StoppingStepIsSilent(c: Config, d: State, e: Event)
    requires d.role.Master? && d.stopping && !EndsStop(e)
    ensures NoData(Step(c, d, e).out)
    ensures Step(c, d, e).d.role == d.role && Step(c, d, e).d.stopping
  {
    if e.Arrive? && Parse(e.frame).Ok? {
      var a := Parse(e.frame).value;
      ReceivingSendsNoData(c, d, a);
      StaysStopping(c, d, a);
    }
  }

  /** From STOPDT act on, a master sends no I-frame until it is confirmed or STARTDT is requested. */
  lemma {:induction false} StoppingMasterIsSilent(c: Config, d: State, events: seq<Event>)
    requires d.role.Master? && d.stopping
    requires forall i :: 0 <= i < |events| ==> !EndsStop(events[i])
    ensures NoData(Output(c, d, events)) && Run(c, d, events).stopping
    decreases |events|
  {
    if events != [] {
      StoppingStepIsSilent(c, d, events[0]);
      StoppingMasterIsSilent(c, Step(c, d, events[0]).d, events[1..]);
    }
  }
}
