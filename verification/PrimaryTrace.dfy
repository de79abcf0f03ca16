/**
 What an observer on the line sees of a primary, whatever it receives and whenever its timers run
 out: the observer keeps a ledger of its own, and every frame the primary writes is one the ledger
 allows.
 */
module PrimaryTrace {
  import opened Octets
  import opened Ft12
  import opened PrimaryStation
  import opened PrimaryTurns

  // ---- the observer ----

  datatype Sight =
    | Heard(frame: Frame)   // the primary received it
    | Wrote(frame: Frame)   // the primary wrote it
    | Abandoned             // the response is overdue for the last time

  datatype Ledger = Ledger(
    open: Option<Frame>,          // the frame awaiting its response
    repeats: nat,                 // how often it was written again
    next: map<LinkAddr, bool>,    // the links that have been reset, with their next frame count bit
    busy: set<LinkAddr>)          // the stations whose latest word was to hold user data

  const NOTHING_SEEN: Ledger := Ledger(None, 0, map[], {})

  /** A response that completes or aborts the open transaction; a single character names no station. */
  predicate Answers(l: Ledger, f: Frame, how: Reaction) {
    && l.open.Some? && !l.open.value.SingleCharAck?
    && if f.SingleCharAck? then how == Confirms
       else !f.control.prm && f.linkAddr == l.open.value.linkAddr && React(f) == how
  }

  /** Every response of a known station says whether it takes more user data. */
  function NoteFlow(l: Ledger, known: set<LinkAddr>, f: Frame): Ledger {
    if f.SingleCharAck? || f.control.prm || f.linkAddr !in known then l
    else l.(busy := if f.control.dfc then l.busy + {f.linkAddr} else l.busy - {f.linkAddr})
  }

  function Close(l: Ledger, restart: bool): Ledger
    requires l.open.Some? && !l.open.value.SingleCharAck?
  {
    var a := l.open.value.linkAddr;
    if restart then Ledger(None, 0, l.next - {a}, l.busy - {a}) else l.(open := None, repeats := 0)
  }

  function Confirm(c: Settings, l: Ledger): Ledger
    requires l.open.Some? && !l.open.value.SingleCharAck?
  {
    var f := l.open.value;
    var l' := Close(l, false);
    if IsReset(c, f.control.fun) then l'.(next := l.next[f.linkAddr := true])
    else if f.control.fcv && f.linkAddr in l.next then l'.(next := l.next[f.linkAddr := !f.control.fcb])
    else l'
  }

  function See(c: Settings, known: set<LinkAddr>, l: Ledger, e: Sight): Ledger {
    match e
    case Heard(f) =>
      var l' := NoteFlow(l, known, f);
      if Answers(l, f, Confirms) then Confirm(c, l')
      else if Answers(l, f, Fails) then Close(l', true)
      else l'
    case Wrote(f) =>
      if f.SingleCharAck? || !f.control.prm then l
      else if l.open.Some? then l.(repeats := l.repeats + 1)
      else Ledger(Some(f), 0, if IsReset(c, f.control.fun) then l.next - {f.linkAddr} else l.next, l.busy)
    case Abandoned => if l.open.Some? && !l.open.value.SingleCharAck? then Close(l, true) else l
  }

  /**
   The rule of the line. A response frame is the business of the other role. While a frame is open
   nothing but its identical repetition may follow, and no more often than configured. Otherwise a
   counted frame goes to a link that has been reset and carries its next bit, and user data goes to
   a station that is not busy.
   */
  predicate Allowed(c: Settings, l: Ledger, e: Sight) {
    e.Wrote? && !e.frame.SingleCharAck? && e.frame.control.prm ==>
      var f := e.frame;
      if l.open.Some? then f == l.open.value && l.repeats < c.maxRepetitions
      else
        && (f.control.fcv ==> f.linkAddr in l.next && l.next[f.linkAddr] == f.control.fcb)
        && (f.control.fun == USER_DATA_CONF ==> f.control.fcv && f.linkAddr !in l.busy)
  }

  function SeeAll(c: Settings, known: set<LinkAddr>, l: Ledger, es: seq<Sight>): Ledger
    decreases |es|
  {
    if es == [] then l else SeeAll(c, known, See(c, known, l, es[0]), es[1..])
  }

  predicate AllAllowed(c: Settings, known: set<LinkAddr>, l: Ledger, es: seq<Sight>)
    decreases |es|
  {
    es == [] || (Allowed(c, l, es[0]) && AllAllowed(c, known, See(c, known, l, es[0]), es[1..]))
  }

  // ---- the primary, driven by anything ----

  datatype Event =
    | Receive(frame: Frame)
    | TickFires(queue: seq<Outgoing>)   // with whatever the application has queued by then
    | ResponseOverdue                   // t1, or t2 after a repetition
    | IdleFires                         // t3
    | Manual(fun: Nibble, addr: LinkAddr)

  function Writes(frames: seq<Frame>): seq<Sight> {
    seq(|frames|, i requires 0 <= i < |frames| => Wrote(frames[i]))
  }

  /** The primary's step and what can be seen of it. */
  function Step(c: Settings, p: Primary, e: Event): (Primary, seq<Sight>)
    requires WellFormed(p)
  {
    match e
    case Receive(f) =>
      var r := HandleFrame(c, p, f);
      (r.p, [Heard(f)] + Writes(r.out))
    case TickFires(q) =>
      var t := Tick(c, p, q);
      (t.p, Writes(t.out))
    case ResponseOverdue =>
      var (t, _) := OnT1(c, p);
      (t.p, if p.lastSent.Some? && t.out == [] then [Abandoned] else Writes(t.out))
    case IdleFires =>
      var t := OnT3(c, p);
      (t.p, Writes(t.out))
    case Manual(fun, a) =>
      var t := LinkRequest(c, p, fun, a);
      (t.p, Writes(t.out))
  }

  // ---- the ledger agrees with the primary ----

  predicate StationAgrees(l: Ledger, s: Station, a: LinkAddr) {
    && (s.phase.Active? <==> a in l.next)
    && (s.phase.Active? ==> s.fcb == l.next[a])
    && (s.busy <==> a in l.busy)
  }

  /** t1 runs exactly while a frame is outstanding, and it is the one the observer has open. */
  predicate Agrees(c: Settings, l: Ledger, p: Primary) {
    && WellFormed(p)
    && (p.t1Armed <==> p.lastSent.Some?)
    && (p.lastSent.None? ==> l.open.None?)
    && (p.lastSent.Some? ==>
        var o := p.lastSent.value;
        && l.open == Some(o.frame) && RequestFrame(c.profile, o.frame, o.addr) && o.ctrl == o.frame.control
        && l.repeats == p.retryCount <= c.maxRepetitions)
    && forall a :: a in p.stations ==> StationAgrees(l, p.stations[a], a)
  }

  // ---- fresh frames ----

  lemma FreshAgrees(c: Settings, l: Ledger, p: Primary, t: Turn)
    requires Agrees(c, l, p) && FreshTurn(c, p, t)
    ensures AllAllowed(c, p.stations.Keys, l, Writes(t.out))
    ensures Agrees(c, SeeAll(c, p.stations.Keys, l, Writes(t.out)), t.p) && t.p.stations.Keys == p.stations.Keys
  {
    var known := p.stations.Keys;
    if t.out == [] {
      assert Writes(t.out) == [];
    } else {
      var f := t.out[0];
      assert Writes(t.out) == [Wrote(f)];
      assert Allowed(c, l, Wrote(f));
      WroteAgrees(c, l, p, t);
    }
  }

  lemma WroteAgrees(c: Settings, l: Ledger, p: Primary, t: Turn)
    requires Agrees(c, l, p) && FreshTurn(c, p, t) && t.out != []
    ensures Agrees(c, See(c, p.stations.Keys, l, Wrote(t.out[0])), t.p)
  {
    var l' := See(c, p.stations.Keys, l, Wrote(t.out[0]));
    forall a | a in t.p.stations ensures StationAgrees(l', t.p.stations[a], a) {
      assert StationAgrees(l, p.stations[a], a);
    }
  }

  // ---- timers ----

  lemma OverdueAgrees(c: Settings, l: Ledger, p: Primary)
    requires Agrees(c, l, p)
    ensures var (p', es) := Step(c, p, ResponseOverdue);
      && AllAllowed(c, p.stations.Keys, l, es) && Agrees(c, SeeAll(c, p.stations.Keys, l, es), p')
      && p'.stations.Keys == p.stations.Keys
  {
    var known := p.stations.Keys;
    var (p', es) := Step(c, p, ResponseOverdue);
    if p.lastSent.None? {
      assert es == [];
    } else if p.retryCount < c.maxRepetitions {
      var f := p.lastSent.value.frame;
      assert es == [Wrote(f)];
      assert SeeAll(c, known, l, es) == See(c, known, l, Wrote(f));
      forall a | a in p'.stations ensures StationAgrees(See(c, known, l, Wrote(f)), p'.stations[a], a) {
        assert StationAgrees(l, p.stations[a], a);
      }
    } else {
      assert es == [Abandoned];
      assert SeeAll(c, known, l, es) == See(c, known, l, Abandoned);
      AbandonedAgrees(c, l, p);
    }
  }

  lemma AbandonedAgrees(c: Settings, l: Ledger, p: Primary)
    requires Agrees(c, l, p) && p.lastSent.Some? && p.retryCount >= c.maxRepetitions
    ensures Agrees(c, See(c, p.stations.Keys, l, Abandoned), OnT1(c, p).0.p)
  {
    var p', l' := OnT1(c, p).0.p, See(c, p.stations.Keys, l, Abandoned);
    forall a | a in p'.stations ensures StationAgrees(l', p'.stations[a], a) {
      assert StationAgrees(l, p.stations[a], a);
    }
  }

  // ---- receptions ----

  /** NoteBusy and NoteFlow agree. */
  lemma BusyAgrees(c: Settings, l: Ledger, p: Primary, f: Frame)
    requires Agrees(c, l, p) && !f.SingleCharAck? && !f.control.prm && f.linkAddr in p.stations
    ensures Agrees(c, NoteFlow(l, p.stations.Keys, f), NoteBusy(p, f.linkAddr, f.control.dfc))
  {
    var p', l' := NoteBusy(p, f.linkAddr, f.control.dfc), NoteFlow(l, p.stations.Keys, f);
    forall a | a in p'.stations ensures StationAgrees(l', p'.stations[a], a) {
      assert StationAgrees(l, p.stations[a], a);
    }
  }

  lemma ConfirmAgrees(c: Settings, l: Ledger, p: Primary)
    requires Agrees(c, l, p) && p.lastSent.Some?
    ensures Agrees(c, Confirm(c, l), ConfirmPositive(c, p, None).0)
    ensures ConfirmPositive(c, p, Some(p.lastSent.value.addr)) == ConfirmPositive(c, p, None)
  {
    var p', l' := ConfirmPositive(c, p, None).0, Confirm(c, l);
    forall a | a in p'.stations ensures StationAgrees(l', p'.stations[a], a) {
      assert StationAgrees(l, p.stations[a], a);
    }
  }

  lemma FailAgrees(c: Settings, l: Ledger, p: Primary)
    requires Agrees(c, l, p) && p.lastSent.Some?
    ensures Agrees(c, Close(l, true), FailTransaction(p, p.lastSent.value.addr))
  {
    var p', l' := FailTransaction(p, p.lastSent.value.addr), Close(l, true);
    forall a | a in p'.stations ensures StationAgrees(l', p'.stations[a], a) {
      assert StationAgrees(l, p.stations[a], a);
    }
  }

  lemma SettledAgrees(c: Settings, l: Ledger, p: Primary, f: Frame)
    requires Agrees(c, l, p)
    ensures Agrees(c, See(c, p.stations.Keys, l, Heard(f)), Settled(c, p, f))
  {
    if f.SingleCharAck? {
      if p.lastSent.Some? { ConfirmAgrees(c, l, p); }
    } else if f.control.prm || f.linkAddr !in p.stations {
      assert See(c, p.stations.Keys, l, Heard(f)) == l;
    } else {
      var p1, l1 := NoteBusy(p, f.linkAddr, f.control.dfc), NoteFlow(l, p.stations.Keys, f);
      BusyAgrees(c, l, p, f);
      if p.lastSent.Some? && p.lastSent.value.addr == f.linkAddr {
        ConfirmAgrees(c, l1, p1);
        FailAgrees(c, l1, p1);
      }
    }
  }

  lemma ResponseAgrees(c: Settings, l: Ledger, p: Primary, f: Frame)
    requires Agrees(c, l, p) && !FromPeer(c, f)
    ensures Keeps(c, l, p, Step(c, p, Receive(f)))
  {
    var r := HandleFrame(c, p, f);
    var p1, l1 := Settled(c, p, f), See(c, p.stations.Keys, l, Heard(f));
    var t := Turn(r.p, r.out);
    SettledAgrees(c, l, p, f);
    ResponseIsSettledThenDemand(c, p, f);
    DemandTurnIsFresh(c, p1, f);
    SettledStations(c, p, f);
    FreshAgrees(c, l1, p1, t);
    assert ([Heard(f)] + Writes(r.out))[1..] == Writes(r.out);
  }

  lemma SettledStations(c: Settings, p: Primary, f: Frame)
    ensures Settled(c, p, f).stations.Keys == p.stations.Keys
  {
  }

  lemma ResponsesUnnoticed(c: Settings, known: set<LinkAddr>, l: Ledger, out: seq<Frame>)
    requires |out| <= 1 && (out != [] ==> out[0].SingleCharAck? || !out[0].control.prm)
    ensures AllAllowed(c, known, l, Writes(out)) && SeeAll(c, known, l, Writes(out)) == l
  {
    if out == [] {
      assert Writes(out) == [];
    } else {
      assert Writes(out) == [Wrote(out[0])];
    }
  }

  lemma PeerChangesNothingElse(c: Settings, p: Primary, f: Frame)
    requires FromPeer(c, f)
    ensures var r := HandleFrame(c, p, f);
      && r.p == p.(fcbExpected := r.p.fcbExpected) && |r.out| <= 1
      && (r.out != [] ==> r.out[0].SingleCharAck? || !r.out[0].control.prm)
  {
  }

  /** The secondary role of a balanced primary writes responses, and leaves the primary role alone. */
  lemma PeerAgrees(c: Settings, l: Ledger, p: Primary, f: Frame)
    requires Agrees(c, l, p) && FromPeer(c, f)
    ensures Keeps(c, l, p, Step(c, p, Receive(f)))
  {
    var r := HandleFrame(c, p, f);
    PeerChangesNothingElse(c, p, f);
    ResponsesUnnoticed(c, p.stations.Keys, l, r.out);
    assert See(c, p.stations.Keys, l, Heard(f)) == l;
    assert ([Heard(f)] + Writes(r.out))[1..] == Writes(r.out);
  }

  // ---- every step ----

  /** Everything written is allowed, and the ledger still agrees. */
  predicate Keeps(c: Settings, l: Ledger, p: Primary, step: (Primary, seq<Sight>)) {
    && AllAllowed(c, p.stations.Keys, l, step.1)
    && Agrees(c, SeeAll(c, p.stations.Keys, l, step.1), step.0)
    && step.0.stations.Keys == p.stations.Keys
  }

  lemma StepKeeps(c: Settings, l: Ledger, p: Primary, e: Event)
    requires Agrees(c, l, p)
    ensures Keeps(c, l, p, Step(c, p, e))
  {
    match e
    case Receive(f) => if FromPeer(c, f) { PeerAgrees(c, l, p, f); } else { ResponseAgrees(c, l, p, f); }
    case TickFires(q) => TickAgrees(c, l, p, q);
    case ResponseOverdue => OverdueAgrees(c, l, p);
    case IdleFires =>
      KeepAliveIsFresh(c, p);
      FreshAgrees(c, l, p, OnT3(c, p));
    case Manual(fun, a) =>
      ManualIsFresh(c, p, fun, a);
      FreshAgrees(c, l, p, LinkRequest(c, p, fun, a));
  }

  lemma TickAgrees(c: Settings, l: Ledger, p: Primary, q: seq<Outgoing>)
    requires Agrees(c, l, p)
    ensures Keeps(c, l, p, Step(c, p, TickFires(q)))
  {
    var t := Tick(c, p, q);
    if p.lastSent.None? {
      TickIsFresh(c, p, q);
      FreshAgrees(c, l, p, Turn(t.p, t.out));
    } else {
      assert Writes(t.out) == [];
    }
  }

  // ---- whole runs ----

  /** The state and the observer's ledger after one event. */
  ghost function After(c: Settings, l: Ledger, p: Primary, e: Event): (r: (Ledger, Primary))
    requires Agrees(c, l, p)
    ensures Agrees(c, r.0, r.1)
  {
    StepKeeps(c, l, p, e);
    (SeeAll(c, p.stations.Keys, l, Step(c, p, e).1), Step(c, p, e).0)
  }

  /** What a run from p shows, and where it ends. */
  ghost function Run(c: Settings, l: Ledger, p: Primary, es: seq<Event>): (r: (Primary, seq<Sight>))
    requires Agrees(c, l, p)
    decreases |es|
  {
    if es == [] then (p, [])
    else
      StepKeeps(c, l, p, es[0]);
      var (p1, seen) := Step(c, p, es[0]);
      var (p2, rest) := Run(c, SeeAll(c, p.stations.Keys, l, seen), p1, es[1..]);
      (p2, seen + rest)
  }

  lemma {:induction false} SeeAllConcat(c: Settings, known: set<LinkAddr>, l: Ledger, es: seq<Sight>, fs: seq<Sight>)
    ensures SeeAll(c, known, l, es + fs) == SeeAll(c, known, SeeAll(c, known, l, es), fs)
    ensures AllAllowed(c, known, l, es + fs) <==>
              AllAllowed(c, known, l, es) && AllAllowed(c, known, SeeAll(c, known, l, es), fs)
    decreases |es|
  {
    if es == [] {
      assert es + fs == fs;
    } else {
      assert (es + fs)[1..] == es[1..] + fs;
      SeeAllConcat(c, known, See(c, known, l, es[0]), es[1..], fs);
    }
  }

  /** Over any run everything the primary writes is allowed, and the observer's ledger is right. */
  lemma {:induction false} RunKeeps(c: Settings, l: Ledger, p: Primary, es: seq<Event>)
    requires Agrees(c, l, p)
    ensures Keeps(c, l, p, Run(c, l, p, es))
    decreases |es|
  {
    if es != [] {
      StepKeeps(c, l, p, es[0]);
      var (p1, seen) := Step(c, p, es[0]);
      var l1 := SeeAll(c, p.stations.Keys, l, seen);
      RunKeeps(c, l1, p1, es[1..]);
      SeeAllConcat(c, p.stations.Keys, l, seen, Run(c, l1, p1, es[1..]).1);
    }
  }

  lemma StartAgrees(c: Settings, order: seq<LinkAddr>)
    requires order != []
    ensures Agrees(c, NOTHING_SEEN, Initial(order))
  {
  }

  /**
   Trace safety, for both profiles, in unbalanced and balanced mode: whatever arrives and whenever
   timers run out, every frame the primary writes is allowed, t1 runs exactly while the observer
   has a frame open, and that is the frame the primary would repeat.
   */
  lemma TraceSafety(c: Settings, order: seq<LinkAddr>, es: seq<Event>)
    requires order != []
    ensures Agrees(c, NOTHING_SEEN, Initial(order))
    ensures var (p, seen) := Run(c, NOTHING_SEEN, Initial(order), es);
      var known := Initial(order).stations.Keys;
      && AllAllowed(c, known, NOTHING_SEEN, seen)
      && (p.t1Armed <==> SeeAll(c, known, NOTHING_SEEN, seen).open.Some?)
      && SeeAll(c, known, NOTHING_SEEN, seen).open == (match p.lastSent case Some(o) => Some(o.frame) case None => None)
  {
    StartAgrees(c, order);
    RunKeeps(c, NOTHING_SEEN, Initial(order), es);
  }
}
