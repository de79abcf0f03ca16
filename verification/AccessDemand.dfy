/**
 Access demand, from the station with class 1 data to the poll that fetches it: when an answer shows
 it, when the primary follows it, and exactly how long the primary remembers it.
 */
module AccessDemand {
  import opened Octets
  import opened Ft12
  import opened PrimaryStation
  import opened PrimaryTurns
  import opened Transactions
  import opened PrimaryTrace
  import SS = SecondaryStation

  /** The response tells the primary that class 1 data waits; a single character cannot. */
  predicate ShowsDemand(f: Frame) { !f.SingleCharAck? && f.control.acd }

  /** A counted frame the station has seen, and still knows the answer to. */
  predicate IsRepeat(s: SS.Secondary, f: Frame) {
    CountsFrames(f) && f.control.fcb != s.fcbExpected && s.lastResp.Some?
  }

  /**
   Every frame of the primary is answered, and the answer shows the demand if and only if class 1
   data is waiting once it has been given. The one exception is a repeated frame: it is answered with
   the frame the station gave the first time, and nothing is taken from the buffers.
   */
  lemma DemandIsShown(c: SS.Config, s: SS.Secondary, b: SS.Buffers, f: Frame)
    requires c.Valid() && PrimaryFrame(f, s.linkAddr) && SS.Broadcast(c) != Some(s.linkAddr)
    ensures var o := SS.HandleFrame(c, s, b, f);
      && |o.out| == 1
      && if IsRepeat(s, f) then o.out[0] == s.lastResp.value && o.b == b && o.s == s
         else ShowsDemand(o.out[0]) <==> o.b.class1 != []
  {
    assert SS.HandleFrame(c, s, b, f) == SS.OnPrimary(c, s, b, f);
    ServiceShowsDemand(c, s, b, f);
    ServiceShowsDemand(c, s.(fcbExpected := !s.fcbExpected), b, f);
  }

  lemma ServiceShowsDemand(c: SS.Config, s: SS.Secondary, b: SS.Buffers, f: Frame)
    requires PrimaryFrame(f, s.linkAddr)
    ensures var o := SS.Serve(c, s, b, f);
      |o.out| == 1 && (ShowsDemand(o.out[0]) <==> o.b.class1 != [])
  {
  }

  /**
   A shown demand is followed up: if the response leaves the link to an active station free, a class
   1 request to it is written at once, and otherwise the station is marked for its next poll.
   */
  lemma DemandIsFollowed(c: Settings, p: Primary, f: Frame)
    requires WellFormed(p) && !c.balanced && ShowsDemand(f) && !f.control.prm && f.linkAddr in p.stations
    ensures var r, p1 := HandleFrame(c, p, f), Settled(c, p, f);
      && f.linkAddr in r.p.stations && f.linkAddr in p1.stations && r.p.stations[f.linkAddr].wantClass1
      && if p1.lastSent.None? && p1.stations[f.linkAddr].phase.Active? then
           |r.out| == 1 && r.out[0].Fixed? && r.out[0].linkAddr == f.linkAddr && r.out[0].control.fun == REQ_DATA1
         else r.out == []
  {
    ResponseIsSettledThenDemand(c, p, f);
  }

  /** The poll of an active station asks for class 1 data if and only if it is marked. */
  lemma MarkedIsAskedForClass1(c: Settings, p: Primary)
    requires WellFormed(p) && !c.balanced && p.stations[p.order[p.pollIdx]].phase.Active?
    ensures var a, t := p.order[p.pollIdx], Poll(c, p, |p.order|);
      && |t.out| == 1 && t.out[0].Fixed? && t.out[0].linkAddr == a
      && t.out[0].control.fun == (if p.stations[a].wantClass1 then REQ_DATA1 else REQ_DATA2)
  {
  }

  // ---- how long a mark lasts ----

  /** The event shows a demand of station a. */
  predicate Shows(c: Settings, p: Primary, e: Event, a: LinkAddr) {
    e.Receive? && !c.balanced && ShowsDemand(e.frame) && !e.frame.control.prm && e.frame.linkAddr == a && a in p.stations
  }

  /** The event confirms the class 1 request to station a, or restarts its link. */
  predicate Clears(c: Settings, p: Primary, e: Event, a: LinkAddr) {
    && p.lastSent.Some? && p.lastSent.value.addr == a
    && match e
       case Receive(f) =>
         (Settles(p, f, Confirms) && p.lastSent.value.ctrl.fun == REQ_DATA1) || Settles(p, f, Fails)
       case ResponseOverdue => p.retryCount >= c.maxRepetitions
       case _ => false
  }

  predicate Marked(p: Primary, a: LinkAddr) { a in p.stations && p.stations[a].wantClass1 }

  lemma ConfirmedMark(c: Settings, p: Primary, a: LinkAddr)
    requires WellFormed(p) && a in p.stations && p.lastSent.Some?
    ensures var p', o := ConfirmPositive(c, p, None).0, p.lastSent.value;
      && p'.stations.Keys == p.stations.Keys
      && ConfirmPositive(c, p, Some(o.addr)).0 == p'
      && (Marked(p', a) <==> Marked(p, a) && !(o.addr == a && o.ctrl.fun == REQ_DATA1))
  {
  }

  lemma FailedMark(p: Primary, b: LinkAddr, a: LinkAddr)
    requires a in p.stations
    ensures var p' := FailTransaction(p, b);
      && p'.stations.Keys == p.stations.Keys
      && (Marked(p', a) <==> Marked(p, a) && !(p.lastSent.Some? && p.lastSent.value.addr == b == a))
  {
  }

  lemma BusyMark(p: Primary, b: LinkAddr, dfc: bool, a: LinkAddr)
    requires a in p.stations
    ensures var p' := NoteBusy(p, b, dfc);
      && p'.stations.Keys == p.stations.Keys && p'.lastSent == p.lastSent && p'.order == p.order && p'.pollIdx == p.pollIdx
      && (Marked(p', a) <==> Marked(p, a))
  {
  }

  lemma SettledMark(c: Settings, p: Primary, f: Frame, a: LinkAddr)
    requires WellFormed(p) && a in p.stations && !FromPeer(c, f)
    ensures Settled(c, p, f).stations.Keys == p.stations.Keys
    ensures Marked(Settled(c, p, f), a) <==> Marked(p, a) && !Clears(c, p, Receive(f), a)
  {
    if f.SingleCharAck? {
      if p.lastSent.Some? { ConfirmedMark(c, p, a); }
    } else if f.linkAddr in p.stations && !f.control.prm {
      var p1 := NoteBusy(p, f.linkAddr, f.control.dfc);
      BusyMark(p, f.linkAddr, f.control.dfc, a);
      FailedMark(p1, f.linkAddr, a);
      if p1.lastSent.Some? { ConfirmedMark(c, p1, a); }
    }
  }

  lemma ReceptionMark(c: Settings, p: Primary, f: Frame, a: LinkAddr)
    requires WellFormed(p) && a in p.stations
    ensures Marked(HandleFrame(c, p, f).p, a)
            <==> Shows(c, p, Receive(f), a) || (Marked(p, a) && !Clears(c, p, Receive(f), a))
  {
    if FromPeer(c, f) {
      PeerChangesNothingElse(c, p, f);
    } else {
      var p1 := Settled(c, p, f);
      SettledMark(c, p, f, a);
      ResponseIsSettledThenDemand(c, p, f);
      DemandMark(c, p1, f, a);
    }
  }

  lemma DemandMark(c: Settings, p: Primary, f: Frame, a: LinkAddr)
    requires a in p.stations
    ensures Marked(Demand(c, p, f).p, a) <==> Shows(c, p, Receive(f), a) || Marked(p, a)
  {
  }

  lemma {:induction false} PollMark(c: Settings, p: Primary, n: nat)
    requires WellFormed(p)
    ensures Poll(c, p, n).p.stations == p.stations
    decreases n
  {
    if n > 0 && c.balanced { PollMark(c, p.(pollIdx := (p.pollIdx + 1) % |p.order|), n - 1); }
  }

  lemma TickMark(c: Settings, p: Primary, q: seq<Outgoing>)
    requires WellFormed(p)
    ensures Tick(c, p, q).p.stations == p.stations
  {
    PollMark(c, p, |p.order|);
  }

  /**
   Exactly: after any event a station is marked if and only if the event showed its demand, or it was
   marked and the event neither confirmed its class 1 request nor restarted its link.
   */
  lemma MarkExactly(c: Settings, p: Primary, e: Event, a: LinkAddr)
    requires WellFormed(p) && a in p.stations
    ensures Marked(Step(c, p, e).0, a) <==> Shows(c, p, e, a) || (Marked(p, a) && !Clears(c, p, e, a))
  {
    match e
    case Receive(f) => ReceptionMark(c, p, f, a);
    case TickFires(q) => TickMark(c, p, q);
    case ResponseOverdue =>
    case IdleFires =>
    case Manual(fun, b) =>
  }

  /** No event of the run confirms a class 1 request to station a or restarts its link. */
  ghost predicate NeverCleared(c: Settings, l: Ledger, p: Primary, es: seq<Event>, a: LinkAddr)
    requires Agrees(c, l, p)
    decreases |es|
  {
    es == [] || (!Clears(c, p, es[0], a) &&
                 var next := After(c, l, p, es[0]); NeverCleared(c, next.0, next.1, es[1..], a))
  }

  /** Over any run, a marked station stays marked until its class 1 request is confirmed or its link restarts. */
  lemma {:induction false} MarkLasts(c: Settings, l: Ledger, p: Primary, es: seq<Event>, a: LinkAddr)
    requires Agrees(c, l, p) && Marked(p, a) && NeverCleared(c, l, p, es, a)
    ensures Marked(Run(c, l, p, es).0, a)
    decreases |es|
  {
    if es != [] {
      MarkExactly(c, p, es[0], a);
      var next := After(c, l, p, es[0]);
      MarkLasts(c, next.0, next.1, es[1..], a);
    }
  }
}
