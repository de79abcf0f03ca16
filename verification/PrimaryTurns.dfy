/**
 The turns of a primary with nothing outstanding, whatever starts them: a tick, the keep-alive, a
 manual request or an access demand. Each is silent or puts one fresh frame on the line.
 */
module PrimaryTurns {
  import opened Octets
  import opened Ft12
  import opened PrimaryStation

  /** The control octet carries every bit that is set, and the length octet counts the ASDU. */
  predicate Carriable(f: Frame)
    requires !f.SingleCharAck?
  {
    Canonical(f.control) && (f.Variable? ==> |f.asdu| <= 249)
  }

  /** A frame the primary puts on the line: what carries a count follows from its function code. */
  predicate RequestFrame(profile: Profile, f: Frame, a: LinkAddr) {
    && !f.SingleCharAck? && f.linkAddr == a && f.control.prm && Carriable(f)
    && (f.control.fun in {RESET_LINK, TEST_LINK, USER_DATA_CONF, REQ_STATUS, REQ_DATA1, REQ_DATA2}
        || (profile.Cs103? && f.control.fun == RESET_FCB))
    && FcvRequired(f.control.fun) == Some(f.control.fcv)
    && (f.Variable? <==> f.control.fun == USER_DATA_CONF)
  }

  /** Nothing differs but the poll cursor and the access demands. */
  predicate SameLinks(p: Primary, p': Primary) {
    && p'.order == p.order && p'.pollIdx < |p.order|
    && p'.fcbExpected == p.fcbExpected && p'.lastSent == p.lastSent && p'.retryCount == p.retryCount && p'.t1Armed == p.t1Armed
    && p'.stations.Keys == p.stations.Keys
    && forall a :: a in p.stations ==> p'.stations[a] == p.stations[a].(wantClass1 := p'.stations[a].wantClass1)
  }

  /**
   Silence, or one fresh frame to one station. A counted frame goes to an active link with that
   link's next bit, and user data to a station that is not busy.
   */
  predicate FreshTurn(c: Settings, p: Primary, t: Turn) {
    if t.out == [] then SameLinks(p, t.p)
    else
      && |t.out| == 1 && !t.out[0].SingleCharAck?
      && var f := t.out[0];
      && f.linkAddr in p.stations && RequestFrame(c.profile, f, f.linkAddr)
      && p.lastSent.None? && t.p.lastSent == Some(Pending(f, f.control, f.linkAddr))
      && t.p.retryCount == 0 && t.p.t1Armed && t.p.fcbExpected == p.fcbExpected
      && t.p.order == p.order && t.p.pollIdx < |p.order|
      && t.p.stations.Keys == p.stations.Keys
      && (forall a :: a in p.stations && a != f.linkAddr ==> t.p.stations[a] == p.stations[a])
      && var s, s' := p.stations[f.linkAddr], t.p.stations[f.linkAddr];
      && s'.fcb == s.fcb && s'.busy == s.busy
      && (s'.phase.Active? <==> s.phase.Active? && !IsReset(c, f.control.fun))
      && (f.control.fcv ==> s.phase.Active? && f.control.fcb == s.fcb)
      && (f.control.fun == USER_DATA_CONF ==> !s.busy)
  }

  /** A request to a station whose link allows it. */
  lemma RequestIsFresh(c: Settings, p: Primary, p1: Primary, addr: LinkAddr, fun: Nibble, fcv: bool)
    requires addr in p.stations && p.lastSent.None?
    requires p1.order == p.order && p1.pollIdx < |p.order| && p1.fcbExpected == p.fcbExpected && p1.stations.Keys == p.stations.Keys
    requires forall b :: b in p.stations && b != addr ==> p1.stations[b] == p.stations[b]
    requires p1.stations[addr].fcb == p.stations[addr].fcb && p1.stations[addr].busy == p.stations[addr].busy
    requires p1.stations[addr].phase.Active? <==> p.stations[addr].phase.Active? && !IsReset(c, fun)
    requires FcvRequired(fun) == Some(fcv)
    requires fun in {RESET_LINK, TEST_LINK, REQ_STATUS, REQ_DATA1, REQ_DATA2} || (c.profile.Cs103? && fun == RESET_FCB)
    requires fcv ==> p.stations[addr].phase.Active?
    ensures FreshTurn(c, p, Request(c, p1, addr, fun, fcv))
  {
  }

  lemma {:induction false} PollIsFresh(c: Settings, p: Primary, n: nat)
    requires WellFormed(p) && p.lastSent.None?
    ensures FreshTurn(c, p, Poll(c, p, n))
    decreases n
  {
    if n > 0 {
      var addr := p.order[p.pollIdx];
      var p' := p.(pollIdx := (p.pollIdx + 1) % |p.order|);
      match p.stations[addr].phase
      case Status => RequestIsFresh(c, p, p', addr, REQ_STATUS, false);
      case Reset => RequestIsFresh(c, p, p', addr, RESET_LINK, false);
      case Active =>
        if c.balanced {
          PollIsFresh(c, p', n - 1);
        } else {
          RequestIsFresh(c, p, p', addr, if p.stations[addr].wantClass1 then REQ_DATA1 else REQ_DATA2, true);
        }
    }
  }

  lemma TickIsFresh(c: Settings, p: Primary, q: seq<Outgoing>)
    requires WellFormed(p) && p.lastSent.None?
    ensures FreshTurn(c, p, Turn(Tick(c, p, q).p, Tick(c, p, q).out))
  {
    ScanFindsEligible(q, p.stations);
    var s := TrySendQueued(c, p, q);
    if !s.sent {
      PollIsFresh(c, p, |p.order|);
    }
  }

  lemma KeepAliveIsFresh(c: Settings, p: Primary)
    requires WellFormed(p)
    ensures FreshTurn(c, p, OnT3(c, p))
  {
  }

  lemma ManualIsFresh(c: Settings, p: Primary, fun: Nibble, addr: LinkAddr)
    requires WellFormed(p)
    ensures FreshTurn(c, p, LinkRequest(c, p, fun, addr))
  {
    if p.lastSent.None? && addr in p.stations {
      if IsReset(c, fun) {
        var p1 := p.(stations := p.stations[addr := p.stations[addr].(phase := Reset)]);
        RequestIsFresh(c, p, p1, addr, fun, false);
      } else if fun == REQ_STATUS {
        RequestIsFresh(c, p, p, addr, fun, false);
      } else if fun == REQ_DATA2 && p.stations[addr].phase.Active? {
        RequestIsFresh(c, p, p, addr, fun, true);
      }
    }
  }

  lemma DemandIsFresh(c: Settings, p: Primary, addr: LinkAddr)
    requires WellFormed(p) && addr in p.stations
    ensures FreshTurn(c, p, NoteDemand(c, p, addr))
  {
  }

  predicate NoUserData(out: seq<Frame>) { out == [] || out[0].Fixed? }

  lemma {:induction false} PollSendsNoUserData(c: Settings, p: Primary, n: nat)
    requires WellFormed(p)
    ensures NoUserData(Poll(c, p, n).out)
    decreases n
  {
    if n > 0 && c.balanced { PollSendsNoUserData(c, p.(pollIdx := (p.pollIdx + 1) % |p.order|), n - 1); }
  }

  /** The queue scan's choice, as the tick sends it. */
  lemma TickSends(c: Settings, p: Primary, q: seq<Outgoing>)
    requires WellFormed(p) && c.Valid() && p.lastSent.None?
    ensures var t, m := Tick(c, p, q), Scan(q, p.stations).0;
      && t.queue == Scan(q, p.stations).1
      && if m.Some? && m.value.asdu.Encodable? then
           && |t.out| == 1 && t.out[0].Variable? && t.out[0].linkAddr == m.value.addr
           && t.out[0].asdu == m.value.asdu.octets && t.out[0].control.fcv
         else NoUserData(t.out)
  {
    ScanFindsEligible(q, p.stations);
    PollSendsNoUserData(c, p, |p.order|);
  }

  // ---- receptions ----

  /** The primary after a response has completed or aborted the transaction, before access demand. */
  function Settled(c: Settings, p: Primary, f: Frame): Primary {
    if f.SingleCharAck? then ConfirmPositive(c, p, None).0
    else if f.linkAddr !in p.stations || f.control.prm then p
    else
      var p1 := NoteBusy(p, f.linkAddr, f.control.dfc);
      match React(f)
      case Confirms => ConfirmPositive(c, p1, Some(f.linkAddr)).0
      case Fails => FailTransaction(p1, f.linkAddr)
      case Ignores => p1
  }

  /** The rest of a response: its access demand. */
  function Demand(c: Settings, p: Primary, f: Frame): Turn {
    if !f.SingleCharAck? && !f.control.prm && f.control.acd && !c.balanced && f.linkAddr in p.stations
    then NoteDemand(c, p, f.linkAddr) else Turn(p, [])
  }

  predicate FromPeer(c: Settings, f: Frame) { !f.SingleCharAck? && f.control.prm && c.balanced }

  /** What the primary does with a response: settle the transaction, then follow an access demand. */
  lemma ResponseIsSettledThenDemand(c: Settings, p: Primary, f: Frame)
    requires !FromPeer(c, f)
    ensures var r := HandleFrame(c, p, f);
      Turn(r.p, r.out) == Demand(c, Settled(c, p, f), f)
  {
  }

  lemma DemandTurnIsFresh(c: Settings, p: Primary, f: Frame)
    requires WellFormed(p)
    ensures FreshTurn(c, p, Demand(c, p, f))
  {
    if !f.SingleCharAck? && f.linkAddr in p.stations { DemandIsFresh(c, p, f.linkAddr); }
  }
}
