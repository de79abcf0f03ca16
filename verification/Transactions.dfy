/**
 One transaction of the frame count bit procedure, at either end: how the primary's side ends and
 how a 101 secondary serves a frame. Shared by multi-drop lines and by balanced ones.
 */
module Transactions {
  import opened Octets
  import opened Collecting
  import opened Ft12
  import opened PrimaryStation
  import opened PrimaryTurns
  import FC = FrameCount
  import SS = SecondaryStation

  datatype Line = Idle | Down(frame: Frame) | Up(frame: Frame)

  predicate CountsFrames(f: Frame) { !f.SingleCharAck? && f.control.fcv }

  function KindOf(f: Frame): FC.Kind {
    if f.SingleCharAck? then FC.Plain
    else if f.control.fun == RESET_LINK then FC.Reset
    else if f.control.fcv then FC.Counted(f.control.fcb)
    else FC.Plain
  }

  predicate PrimaryFrame(f: Frame, a: LinkAddr) { RequestFrame(Cs101, f, a) }

  predicate ResponseFrom(f: Frame, a: LinkAddr) {
    f.SingleCharAck? || (f.linkAddr == a && !f.control.prm && Carriable(f))
  }

  /** The station's own test of a counted frame: it has not seen this one yet. */
  predicate IsNew(s: SS.Secondary, f: Frame) {
    !f.SingleCharAck? && f.control.fcv && f.control.fcb == s.fcbExpected
  }

  /** The user data of a frame. */
  function FrameData(f: Frame): Option<seq<byte>> { if f.Variable? then Some(f.asdu) else None }

  /** The user data of an exchange: what the primary sent in it. */
  function SentData(x: (Frame, Frame)): Option<seq<byte>> { FrameData(x.0) }

  function AsduData(m: Asdu): Option<seq<byte>> { if m.Encodable? then Some(m.octets) else None }

  lemma {:induction false} CollectFirsts(s: seq<(Frame, Frame)>)
    ensures Collect(FC.Firsts(s), FrameData) == Collect(s, SentData)
  {
    if s != [] {
      assert FC.Firsts(s)[1..] == FC.Firsts(s[1..]);
      CollectFirsts(s[1..]);
    }
  }

  /** The user data of an exchange is that of its frame. */
  lemma {:induction false} CollectSame(s: seq<(Frame, Frame)>)
    ensures Collect(s, FC.FirstOf(FrameData)) == Collect(s, SentData)
  {
    if s != [] { CollectSame(s[1..]); }
  }

  // ---- the end of a transaction at the primary ----

  /** The response completes, or aborts, the outstanding transaction. */
  predicate Settles(p: Primary, f: Frame, how: Reaction) {
    && p.lastSent.Some?
    && if f.SingleCharAck? then how == Confirms
       else f.linkAddr == p.lastSent.value.addr && f.linkAddr in p.stations && !f.control.prm && React(f) == how
  }

  function Reacts(f: Frame): Reaction { if f.SingleCharAck? then Confirms else React(f) }

  lemma ReactionSettles(p: Primary, f: Frame, how: Reaction)
    requires WellFormed(p) && p.lastSent.Some? && ResponseFrom(f, p.lastSent.value.addr)
    ensures Settles(p, f, how) <==> Reacts(f) == how
  {
  }

  /** The primary changes nothing but its station a, and neither it nor anyone else moves on. */
  predicate OnlyStation(p: Primary, p': Primary, a: LinkAddr) {
    && p'.order == p.order && p'.pollIdx == p.pollIdx && p'.fcbExpected == p.fcbExpected
    && p'.stations.Keys == p.stations.Keys
    && forall b :: b in p.stations && b != a ==> p'.stations[b] == p.stations[b]
  }

  /** How a transaction with a ends at the primary, as far as the frame count bit goes. */
  predicate EndsBy(p: Primary, p': Primary, how: Reaction)
    requires p.lastSent.Some?
  {
    var o := p.lastSent.value;
    && o.addr in p.stations && OnlyStation(p, p', o.addr)
    && var s, s' := p.stations[o.addr], p'.stations[o.addr];
    match how
    case Confirms =>
      && p'.lastSent.None?
      && s'.fcb == (if o.ctrl.fun == RESET_LINK then true else if o.ctrl.fcv then !o.ctrl.fcb else s.fcb)
      && (s'.phase.Active? <==> s.phase.Active? || o.ctrl.fun == RESET_LINK)
    case Fails => p'.lastSent.None? && s'.fcb == s.fcb && !s'.phase.Active?
    case Ignores => p'.lastSent == p.lastSent && s'.fcb == s.fcb && s'.phase == s.phase
  }

  lemma OverdueEnds(c: Settings, p: Primary)
    requires WellFormed(p) && p.lastSent.Some?
    ensures var (t, _) := OnT1(c, p);
      if p.retryCount < c.maxRepetitions then t.out == [p.lastSent.value.frame] && EndsBy(p, t.p, Ignores)
      else t.out == [] && EndsBy(p, t.p, Fails)
  {
  }

  lemma ConfirmEnds(c: Settings, p: Primary)
    requires WellFormed(p) && p.lastSent.Some? && c.profile.Cs101?
    ensures EndsBy(p, ConfirmPositive(c, p, None).0, Confirms)
    ensures ConfirmPositive(c, p, Some(p.lastSent.value.addr)) == ConfirmPositive(c, p, None)
  {
  }

  lemma SettledEnds(c: Settings, p: Primary, f: Frame)
    requires WellFormed(p) && p.lastSent.Some? && c.profile.Cs101? && ResponseFrom(f, p.lastSent.value.addr)
    ensures EndsBy(p, Settled(c, p, f), Reacts(f))
  {
    if f.SingleCharAck? {
      ConfirmEnds(c, p);
    } else {
      var p1 := NoteBusy(p, f.linkAddr, f.control.dfc);
      assert EndsBy(p, p1, Ignores);
      ConfirmEnds(c, p1);
    }
  }

  // ---- the frame at the secondary ----

  /** How the addressed station serves a frame of the primary: it acts once, and repeats its answer. */
  predicate Served(s: SS.Secondary, o: SS.Outcome, f: Frame)
    requires !f.SingleCharAck?
  {
    && o.s.linkAddr == s.linkAddr && |o.out| == 1 && ResponseFrom(o.out[0], s.linkAddr)
    && (o.s.lastResp.Some? ==> ResponseFrom(o.s.lastResp.value, s.linkAddr))
    && (if f.control.fcv && f.control.fcb != s.fcbExpected && s.lastResp.Some?
        then o.s == s && o.out[0] == s.lastResp.value
        else o.s.lastResp == Some(o.out[0]))
    && o.s.fcbExpected == match KindOf(f)
                          case Reset => true
                          case Plain => s.fcbExpected
                          case Counted(fcb) => if fcb == s.fcbExpected then !s.fcbExpected else s.fcbExpected
  }

  lemma FreshlyServed(c: SS.Config, s: SS.Secondary, b: SS.Buffers, f: Frame)
    requires PrimaryFrame(f, s.linkAddr)
    ensures var o := SS.Serve(c, s, b, f);
      && o.s == s.(fcbExpected := o.s.fcbExpected, lastResp := o.s.lastResp)
      && o.s.fcbExpected == (f.control.fun == RESET_LINK || s.fcbExpected)
      && |o.out| == 1 && ResponseFrom(o.out[0], s.linkAddr) && o.s.lastResp == Some(o.out[0])
  {
  }

  lemma StationServes(c: SS.Config, s: SS.Secondary, b: SS.Buffers, f: Frame)
    requires c.Valid() && PrimaryFrame(f, s.linkAddr) && SS.Broadcast(c) != Some(s.linkAddr)
    requires s.lastResp.Some? ==> ResponseFrom(s.lastResp.value, s.linkAddr)
    ensures Served(s, SS.HandleFrame(c, s, b, f), f)
  {
    assert SS.HandleFrame(c, s, b, f) == SS.OnPrimary(c, s, b, f);
    FreshlyServed(c, s, b, f);
    FreshlyServed(c, s.(fcbExpected := !s.fcbExpected), b, f);
  }
}
