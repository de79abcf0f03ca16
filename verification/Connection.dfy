/**
 The driver of one IEC 60870-5-104 connection (src/cs104/connection.rs): sequence numbers, the
 k/w windows and the STARTDT/STOPDT procedure.

 `State` and the functions on it specify the driver; the class of ConnectionDriver is the loop body
 itself. A timer comparison is a parameter of `Tick`, so a theorem about `Tick` holds for every clock.
 */
module Connection {
  import opened Octets
  import opened Apci

  datatype Role = Master | Controlled

  datatype Ctrl = StartDt | StopDt

  /** k and w; the configuration check bounds both by 1 and 32767. */
  datatype Config = Config(k: nat, w: nat) {
    predicate Valid() { 1 <= k <= 32767 && 1 <= w <= 32767 }
  }

  datatype State = State(
    role: Role,
    active: bool,            // data transfer is started
    stopping: bool,          // master: STOPDT act was sent
    stopConPending: bool,    // controlled station: STOPDT con is held back
    seqNoSend: SeqNo,        // number of the next outbound I-frame
    ackNoSend: SeqNo,        // oldest outbound number not confirmed
    seqNoRcv: SeqNo,         // number of the next inbound I-frame
    ackNoRcv: SeqNo,         // oldest inbound number not acknowledged
    pending: seq<SeqNo>,     // outbound numbers not confirmed, in order
    closed: bool             // the loop has been left
  )

  /** The new state, the frames written, and the raw ASDUs accepted from the peer. */
  datatype Effect = Effect(d: State, out: seq<Apdu>, accepted: seq<seq<byte>>)

  function Initial(role: Role): State {
    State(role, false, false, false, 0, 0, 0, 0, [], false)
  }

  // ---- the send window ----

  function InFlight(d: State): nat { SeqNoCount(d.ackNoSend, d.seqNoSend) }

  function Unacknowledged(d: State): nat { SeqNoCount(d.ackNoRcv, d.seqNoRcv) }

  predicate MaySend(c: Config, d: State) {
    !d.closed && d.active && !d.stopping && InFlight(d) < c.k
  }

  /** The n consecutive sequence numbers from `first`, modulo 32768. */
  function Window(first: SeqNo, n: nat): (s: seq<SeqNo>)
    ensures |s| == n
  {
    seq<SeqNo>(n, i requires 0 <= i => Wrap(first + i))
  }

  predicate Valid(c: Config, d: State) {
    && c.Valid()
    && d.pending == Window(d.ackNoSend, InFlight(d))
    && InFlight(d) <= c.k
    && Unacknowledged(d) < c.w
  }

  function Position(s: seq<SeqNo>, x: SeqNo): (r: Option<nat>)
    ensures r.Some? ==> r.value < |s| && s[r.value] == x && x !in s[..r.value]
    ensures r.None? ==> x !in s
  {
    if s == [] then None
    else if s[0] == x then Some(0)
    else
      match Position(s[1..], x)
      case None => None
      case Some(i) => Some(i + 1)
  }

  function DropThrough(s: seq<SeqNo>, x: SeqNo): seq<SeqNo> {
    match Position(s, x)
    case None => s
    case Some(i) => s[i + 1..]
  }

  function Predecessor(n: SeqNo): SeqNo { if n == 0 then 32767 else n - 1 }

  /** `update_ack_no_out`: None is an acknowledgement outside the window. */
  function UpdateAck(d: State, ackNo: SeqNo): Option<State> {
    if ackNo == d.ackNoSend then Some(d)
    else if SeqNoCount(d.ackNoSend, d.seqNoSend) < SeqNoCount(ackNo, d.seqNoSend) then None
    else Some(d.(ackNoSend := ackNo, pending := DropThrough(d.pending, Predecessor(ackNo))))
  }

  // ---- the arms of the loop ----

  function Transmit(c: Config, d: State, asdu: seq<byte>): Effect
    requires MaySend(c, d)
  {
    if |asdu| > ASDU_SIZE_MAX then Effect(d, [], [])
    else
      Effect(d.(ackNoRcv := d.seqNoRcv, pending := d.pending + [d.seqNoSend], seqNoSend := Wrap(d.seqNoSend + 1)),
             [I(d.seqNoSend, d.seqNoRcv, asdu)], [])
  }

  function Control(d: State, ctrl: Ctrl): Effect {
    match ctrl
    case StartDt => Effect(d.(stopping := false), [U(StartDtActive)], [])
    case StopDt => Effect(d.(stopping := true), [U(StopDtActive)], [])
  }

  function Close(d: State): Effect { Effect(d.(closed := true), [], []) }

  function OnSupervisory(d: State, recvSn: SeqNo): Effect {
    match UpdateAck(d, recvSn)
    case None => Close(d)
    case Some(d') => Effect(d', [], [])
  }

  function OnInformation(c: Config, d: State, sendSn: SeqNo, recvSn: SeqNo, asdu: seq<byte>): Effect {
    if !d.active && d.role.Controlled? then Close(d)
    else
      match UpdateAck(d, recvSn)
      case None => Close(d)
      case Some(d') =>
        if sendSn != d'.seqNoRcv then Close(d')
        else Accept(c, d', asdu)
  }

  /** An I-frame in sequence: count it, and acknowledge at w. */
  function Accept(c: Config, d: State, asdu: seq<byte>): Effect {
    var d' := d.(seqNoRcv := Wrap(d.seqNoRcv + 1));
    if Unacknowledged(d') >= c.w
    then Effect(d'.(ackNoRcv := d'.seqNoRcv), [S(d'.seqNoRcv)], [asdu])
    else Effect(d', [], [asdu])
  }

  function OnUnnumbered(d: State, f: UFunction): Effect {
    match (f, d.role)
    case (StartDtActive, Controlled) =>
      Effect(d.(stopConPending := false, active := true), [U(StartDtConfirm)], [])
    case (StopDtActive, Controlled) =>
      Effect(d.(active := false, ackNoRcv := d.seqNoRcv, stopConPending := true),
             if d.ackNoRcv != d.seqNoRcv then [S(d.seqNoRcv)] else [], [])
    case (StartDtConfirm, Master) => Effect(d.(active := true), [], [])
    case (StopDtConfirm, Master) => Effect(d.(active := false, stopping := false), [], [])
    case (TestFrActive, _) => Effect(d, [U(TestFrConfirm)], [])
    case (_, _) => Effect(d, [], [])
  }

  /** STOPDT con goes out once nothing this station sent is unacknowledged. */
  function ReleaseStopCon(e: Effect): Effect {
    if !e.d.closed && e.d.stopConPending && e.d.ackNoSend == e.d.seqNoSend
    then Effect(e.d.(stopConPending := false), e.out + [U(StopDtConfirm)], e.accepted)
    else e
  }

  function OnApdu(c: Config, d: State, a: Apdu): Effect {
    match a
    case I(s, r, asdu) => ReleaseStopCon(OnInformation(c, d, s, r, asdu))
    case S(r) => ReleaseStopCon(OnSupervisory(d, r))
    case U(f) => ReleaseStopCon(OnUnnumbered(d, f))
  }

  /** A malformed frame is ignored; anything else is acted on. */
  function Receive(c: Config, d: State, frame: seq<byte>): Effect {
    match Parse(frame)
    case Err(_) => Effect(d, [], [])
    case Ok(a) => OnApdu(c, d, a)
  }

  /** What the timer comparisons found when the ticker fired. */
  datatype Clock = Clock(
    confirmOverdue: bool,    // t1 since an unconfirmed STARTDT, STOPDT or TESTFR act
    oldestOverdue: bool,     // t1 since the oldest unconfirmed I-frame
    ackDue: bool,            // t2, or one idle tick after a burst
    idle: bool               // t3
  )

  function Tick(d: State, t: Clock): Effect {
    if t.confirmOverdue || (d.ackNoSend != d.seqNoSend && d.pending != [] && t.oldestOverdue) then Close(d)
    else
      var ack := d.ackNoRcv != d.seqNoRcv && t.ackDue;
      Effect(if ack then d.(ackNoRcv := d.seqNoRcv) else d,
             (if ack then [S(d.seqNoRcv)] else []) + (if t.idle then [U(TestFrActive)] else []), [])
  }

  lemma {:induction false} PositionIsFirst(s: seq<SeqNo>, x: SeqNo, pos: nat)
    requires pos < |s| && s[pos] == x && x !in s[..pos]
    ensures Position(s, x) == Some(pos)
  {
    if pos > 0 {
      assert s[0] in s[..pos];
      assert s[1..][..pos - 1] == s[1..pos];
      PositionIsFirst(s[1..], x, pos - 1);
    }
  }
}
