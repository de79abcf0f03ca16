/** Every event of a balanced line is a step of one direction's procedure and leaves the other alone. */
module BalancedSafety {
  import opened Octets
  import opened Ft12
  import opened PrimaryStation
  import opened PrimaryTurns
  import opened Transactions
  import opened Balanced
  import FC = FrameCount
  import SS = SecondaryStation

  /** Everything the direction from B depends on is as it was. */
  predicate SameB(c: Setup, y: System, y': System) {
    && y'.p.fcbExpected == y.p.fcbExpected && y'.fromB == y.fromB && y'.recB == y.recB
    && y'.s == y.s.(fcbExpected := y'.s.fcbExpected, lastResp := y'.s.lastResp)
  }

  /** Everything the direction from A depends on is as it was. */
  predicate SameA(c: Setup, y: System, y': System) {
    && y'.p == y.p.(fcbExpected := y'.p.fcbExpected) && y'.fromA == y.fromA && y'.recA == y.recA
    && y'.s.linkAddr == y.s.linkAddr && y'.s.fcbExpected == y.s.fcbExpected && y'.s.lastResp == y.s.lastResp
  }

  lemma OnlyAChanges(c: Setup, y: System, y': System)
    requires Invariant(c, y) && SameB(c, y, y') && Shape(c, y') && ShapeA(c, y') && FC.Good(ViewA(c, y'))
    ensures Invariant(c, y') && ViewB(c, y') == ViewB(c, y)
  {
  }

  lemma OnlyBChanges(c: Setup, y: System, y': System)
    requires Invariant(c, y) && SameA(c, y, y') && ShapeB(c, y') && FC.Good(ViewB(c, y'))
    ensures Invariant(c, y') && ViewA(c, y') == ViewA(c, y)
  {
  }

  // ---- the direction from A ----

  lemma IssuedShape(c: Setup, y: System, t: Turn)
    requires c.Valid() && Shape(c, y) && ShapeA(c, y) && FreshTurn(c.primary, y.p, t)
    ensures var y' := Issued(y, t);
      && SameB(c, y, y') && Shape(c, y') && ShapeA(c, y')
      && if t.out == [] then ViewA(c, y') == ViewA(c, y)
         else
           var o := FC.Outstanding(KindOf(t.out[0]), t.out[0]);
           FC.MayIssue(ViewA(c, y), o) && ViewA(c, y') == FC.Issue(ViewA(c, y), o)
  {
  }

  lemma IssuedKeeps(c: Setup, y: System, t: Turn)
    requires c.Valid() && Invariant(c, y) && FreshTurn(c.primary, y.p, t)
    ensures Invariant(c, Issued(y, t)) && ViewB(c, Issued(y, t)) == ViewB(c, y)
  {
    IssuedShape(c, y, t);
    if t.out != [] {
      FC.IssueKeeps(ViewA(c, y), FC.Outstanding(KindOf(t.out[0]), t.out[0]));
    }
    OnlyAChanges(c, y, Issued(y, t));
  }

  lemma QueueIrrelevant(c: Setup, y: System, queue: seq<Outgoing>, r: Record)
    requires Invariant(c, y)
    requires r == y.recA.(queued := r.queued, taken := r.taken)
    ensures Invariant(c, y.(queue := queue, recA := r)) && ViewB(c, y.(queue := queue, recA := r)) == ViewB(c, y)
  {
    assert ViewA(c, y.(queue := queue, recA := r)) == ViewA(c, y);
  }

  lemma TickAKeeps(c: Setup, y: System)
    requires c.Valid() && Invariant(c, y)
    ensures Invariant(c, TickedA(c, y)) && ViewB(c, TickedA(c, y)) == ViewB(c, y)
  {
    if y.p.lastSent.None? {
      var t := Tick(c.primary, y.p, y.queue);
      var r := y.recA.(taken := y.recA.taken + TakenFor(y.queue, y.p.stations, c.addr));
      TickIsFresh(c.primary, y.p, y.queue);
      QueueIrrelevant(c, y, t.queue, r);
      IssuedKeeps(c, y.(queue := t.queue, recA := r), Turn(t.p, t.out));
    }
  }

  lemma OverdueAShape(c: Setup, y: System)
    requires c.Valid() && Shape(c, y) && ShapeA(c, y) && y.p.lastSent.Some? && y.fromA.Idle?
    ensures var y' := OverdueA(c, y);
      && SameB(c, y, y') && Shape(c, y') && ShapeA(c, y')
      && ViewA(c, y') == (if y.p.retryCount < c.primary.maxRepetitions then FC.Retry(ViewA(c, y)) else FC.GiveUp(ViewA(c, y)))
  {
    OverdueEnds(c.primary, y.p);
  }

  lemma OverdueAKeeps(c: Setup, y: System)
    requires c.Valid() && Invariant(c, y) && y.fromA.Idle?
    ensures Invariant(c, OverdueA(c, y)) && ViewB(c, OverdueA(c, y)) == ViewB(c, y)
  {
    if y.p.lastSent.None? {
      OnlyAChanges(c, y, OverdueA(c, y));
    } else {
      OverdueAShape(c, y);
      FC.RetryKeeps(ViewA(c, y));
      FC.GiveUpKeeps(ViewA(c, y));
      OnlyAChanges(c, y, OverdueA(c, y));
    }
  }

  lemma LostAKeeps(c: Setup, y: System)
    requires Invariant(c, y)
    ensures Invariant(c, y.(fromA := Line.Idle)) && ViewB(c, y.(fromA := Line.Idle)) == ViewB(c, y)
  {
    FC.LoseKeeps(ViewA(c, y));
    assert ViewA(c, y.(fromA := Line.Idle)) == FC.Lose(ViewA(c, y));
    OnlyAChanges(c, y, y.(fromA := Line.Idle));
  }

  lemma FrameAtBShape(c: Setup, y: System, f: Frame)
    requires c.Valid() && Shape(c, y) && ShapeA(c, y) && y.fromA == Down(f)
    ensures var y', o := FrameAtB(c, y, f), SS.HandleFrame(c.secondary, y.s, y.b, f);
      && SameB(c, y, y') && Shape(c, y') && ShapeA(c, y') && |o.out| == 1
      && var v := ViewA(c, y);
      && v.out.Some?
      && (FC.Repeats(v) && v.replay.Some? ==> ViewA(c, y') == FC.Replay(v))
      && (!FC.Repeats(v) ==> ViewA(c, y') == FC.Act(v, o.out[0]))
  {
    StationServes(c.secondary, y.s, y.b, f);
    assert SS.HandleFrame(c.secondary, y.s, y.b, f) == SS.OnPrimary(c.secondary, y.s, y.b, f);
    PrimRoleUntouched(c.secondary, y.s, y.b, f);
  }

  lemma PrimRoleUntouched(c: SS.Config, s: SS.Secondary, b: SS.Buffers, f: Frame)
    requires !f.SingleCharAck? && f.control.prm && SS.HandleFrame(c, s, b, f) == SS.OnPrimary(c, s, b, f)
    ensures var o := SS.HandleFrame(c, s, b, f);
      o.s == s.(fcbExpected := o.s.fcbExpected, lastResp := o.s.lastResp)
  {
    ServeLeavesPrimRole(c, s, b, f);
    ServeLeavesPrimRole(c, s.(fcbExpected := !s.fcbExpected), b, f);
  }

  lemma ServeLeavesPrimRole(c: SS.Config, s: SS.Secondary, b: SS.Buffers, f: Frame)
    requires !f.SingleCharAck?
    ensures var o := SS.Serve(c, s, b, f);
      o.s == s.(fcbExpected := o.s.fcbExpected, lastResp := o.s.lastResp)
  {
  }

  lemma FrameAtBKeeps(c: Setup, y: System, f: Frame)
    requires c.Valid() && Invariant(c, y) && y.fromA == Down(f)
    ensures Invariant(c, FrameAtB(c, y, f)) && ViewB(c, FrameAtB(c, y, f)) == ViewB(c, y)
  {
    FrameAtBShape(c, y, f);
    var v := ViewA(c, y);
    if FC.Repeats(v) {
      FC.ReplayKeeps(v);
    } else {
      FC.ActKeeps(v, SS.HandleFrame(c.secondary, y.s, y.b, f).out[0]);
    }
    OnlyAChanges(c, y, FrameAtB(c, y, f));
  }

  /** In balanced mode a response is settled and asks for nothing more. */
  lemma ResponseIsSettled(c: Settings, p: Primary, f: Frame)
    requires c.balanced && (f.SingleCharAck? || !f.control.prm)
    ensures HandleFrame(c, p, f).p == Settled(c, p, f)
  {
    ResponseIsSettledThenDemand(c, p, f);
  }

  /** A's transaction ends, or stays open with nothing on the line. */
  lemma EndShape(c: Setup, y: System, p1: Primary, r: Record, how: Reaction, resp: Frame)
    requires Shape(c, y) && ShapeA(c, y) && y.p.lastSent.Some? && EndsBy(y.p, p1, how)
    requires how.Confirms? ==> y.fromA == Up(resp)
    requires r == match how
                  case Confirms => Answered(y.recA, y.p.lastSent.value.frame, resp)
                  case Fails => GivenUp(y.recA, y.p.lastSent.value.frame)
                  case Ignores => y.recA
    ensures var y', v := y.(p := p1, fromA := Line.Idle, recA := r), ViewA(c, y);
      && SameB(c, y, y') && Shape(c, y') && ShapeA(c, y')
      && ViewA(c, y') == (match how
                          case Confirms => FC.Confirm(v)
                          case Fails => FC.GiveUp(v)
                          case Ignores => FC.Lose(v))
  {
  }

  lemma ResponseAtAShape(c: Setup, y: System, f: Frame)
    requires c.Valid() && Shape(c, y) && ShapeA(c, y) && y.fromA == Up(f)
    ensures var y', v := ResponseAtA(c, y, f), ViewA(c, y);
      && SameB(c, y, y') && Shape(c, y') && ShapeA(c, y') && v.out.Some?
      && ViewA(c, y') == (match Reacts(f)
                          case Confirms => FC.Confirm(v)
                          case Fails => FC.GiveUp(v)
                          case Ignores => FC.Lose(v))
  {
    SettledEnds(c.primary, y.p, f);
    ResponseIsSettled(c.primary, y.p, f);
    ReactionSettles(y.p, f, Confirms);
    ReactionSettles(y.p, f, Fails);
    EndShape(c, y, Settled(c.primary, y.p, f), ResponseAtA(c, y, f).recA, Reacts(f), f);
  }

  lemma ResponseAtAKeeps(c: Setup, y: System, f: Frame)
    requires c.Valid() && Invariant(c, y) && y.fromA == Up(f)
    ensures Invariant(c, ResponseAtA(c, y, f)) && ViewB(c, ResponseAtA(c, y, f)) == ViewB(c, y)
  {
    ResponseAtAShape(c, y, f);
    var v := ViewA(c, y);
    FC.ConfirmKeeps(v);
    FC.GiveUpKeeps(v);
    FC.LoseKeeps(v);
    OnlyAChanges(c, y, ResponseAtA(c, y, f));
  }

  // ---- the direction from B ----

  lemma TickBShape(c: Setup, y: System, initDue: bool)
    requires c.Valid() && Shape(c, y) && ShapeB(c, y) && y.s.primOut.None?
    ensures var y', out := TickedB(c, y, initDue), SS.PrimTick(c.secondary, y.s, y.b, false, initDue).out;
      && SameA(c, y, y') && ShapeB(c, y')
      && if out == [] then ViewB(c, y') == ViewB(c, y)
         else
           var o := FC.Outstanding(KindOf(out[0]), out[0]);
           FC.MayIssue(ViewB(c, y), o) && ViewB(c, y') == FC.Issue(ViewB(c, y), o)
  {
  }

  lemma TickBKeeps(c: Setup, y: System, initDue: bool)
    requires c.Valid() && Invariant(c, y) && y.s.primOut.None?
    ensures Invariant(c, TickedB(c, y, initDue)) && ViewA(c, TickedB(c, y, initDue)) == ViewA(c, y)
  {
    var out := SS.PrimTick(c.secondary, y.s, y.b, false, initDue).out;
    TickBShape(c, y, initDue);
    if out != [] {
      FC.IssueKeeps(ViewB(c, y), FC.Outstanding(KindOf(out[0]), out[0]));
    }
    OnlyBChanges(c, y, TickedB(c, y, initDue));
  }

  lemma OverdueBShape(c: Setup, y: System)
    requires Shape(c, y) && ShapeB(c, y) && y.fromB.Idle? && y.s.primOut.Some?
    ensures var y', v := OverdueB(c, y), ViewB(c, y);
      && SameA(c, y, y') && ShapeB(c, y') && v.out.Some?
      && ViewB(c, y') == if y.s.primRetry < c.secondary.maxRepetitions then FC.Retry(v) else FC.GiveUp(v)
  {
    if y.s.primRetry < c.secondary.maxRepetitions {
      RetryBShape(c, y, OverdueB(c, y));
    } else {
      GiveUpBShape(c, y, OverdueB(c, y));
    }
  }

  lemma RetryBShape(c: Setup, y: System, y': System)
    requires Shape(c, y) && ShapeB(c, y) && y.s.primOut.Some?
    requires y' == y.(s := y.s.(primRetry := y.s.primRetry + 1), fromB := Down(y.s.primOut.value))
    ensures SameA(c, y, y') && ShapeB(c, y') && ViewB(c, y') == FC.Retry(ViewB(c, y))
  {
  }

  lemma GiveUpBShape(c: Setup, y: System, y': System)
    requires Shape(c, y) && ShapeB(c, y) && y.s.primOut.Some? && y.fromB.Idle?
    requires y' == y.(s := y.s.(primOut := None, primRetry := 0, primActive := false), recB := GivenUp(y.recB, y.s.primOut.value))
    ensures SameA(c, y, y') && ShapeB(c, y') && ViewB(c, y').out.None? && ViewB(c, y') == FC.GiveUp(ViewB(c, y))
  {
    assert KindOf(y.s.primOut.value).Counted? <==> CountsFrames(y.s.primOut.value);
  }

  lemma OverdueBKeeps(c: Setup, y: System)
    requires c.Valid() && Invariant(c, y) && y.fromB.Idle?
    ensures Invariant(c, OverdueB(c, y)) && ViewA(c, OverdueB(c, y)) == ViewA(c, y)
  {
    if y.s.primOut.Some? {
      OverdueBShape(c, y);
      FC.RetryKeeps(ViewB(c, y));
      FC.GiveUpKeeps(ViewB(c, y));
      OnlyBChanges(c, y, OverdueB(c, y));
    }
  }

  lemma LostBKeeps(c: Setup, y: System)
    requires Invariant(c, y)
    ensures Invariant(c, y.(fromB := Line.Idle)) && ViewA(c, y.(fromB := Line.Idle)) == ViewA(c, y)
  {
    FC.LoseKeeps(ViewB(c, y));
    assert ViewB(c, y.(fromB := Line.Idle)) == FC.Lose(ViewB(c, y));
    OnlyBChanges(c, y, y.(fromB := Line.Idle));
  }

  lemma FrameAtAShape(c: Setup, y: System, f: Frame)
    requires c.Valid() && Shape(c, y) && ShapeB(c, y) && y.fromB == Down(f)
    ensures var y', v := FrameAtA(c, y, f), ViewB(c, y);
      && SameA(c, y, y') && ShapeB(c, y') && v.out.Some?
      && ViewB(c, y') == if FC.Repeats(v) then FC.Replay(v) else FC.Act(v, PeerAck(c.primary, CONF_ACK, c.addr))
  {
  }

  lemma FrameAtAKeeps(c: Setup, y: System, f: Frame)
    requires c.Valid() && Invariant(c, y) && y.fromB == Down(f)
    ensures Invariant(c, FrameAtA(c, y, f)) && ViewA(c, FrameAtA(c, y, f)) == ViewA(c, y)
  {
    FrameAtAShape(c, y, f);
    var v := ViewB(c, y);
    if FC.Repeats(v) {
      FC.ReplayKeeps(v);
    } else {
      FC.ActKeeps(v, PeerAck(c.primary, CONF_ACK, c.addr));
    }
    OnlyBChanges(c, y, FrameAtA(c, y, f));
  }

  lemma ResponseAtBShape(c: Setup, y: System, f: Frame)
    requires c.Valid() && Shape(c, y) && ShapeB(c, y) && y.fromB == Up(f)
    ensures var y', v := ResponseAtB(c, y, f), ViewB(c, y);
      SameA(c, y, y') && ShapeB(c, y') && v.out.Some? && ViewB(c, y') == FC.Confirm(v)
  {
  }

  lemma ResponseAtBKeeps(c: Setup, y: System, f: Frame)
    requires c.Valid() && Invariant(c, y) && y.fromB == Up(f)
    ensures Invariant(c, ResponseAtB(c, y, f)) && ViewA(c, ResponseAtB(c, y, f)) == ViewA(c, y)
  {
    ResponseAtBShape(c, y, f);
    FC.ConfirmKeeps(ViewB(c, y));
    OnlyBChanges(c, y, ResponseAtB(c, y, f));
  }
}
