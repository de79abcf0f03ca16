/** Every event of an unbalanced multi-drop line is a step of the frame count bit procedure of one station. */
module MultiDropSafety {
  import opened Octets
  import opened Ft12
  import opened PrimaryStation
  import opened Transactions
  import opened PrimaryTurns
  import opened MultiDrop
  import FC = FrameCount
  import SS = SecondaryStation

  // ---- fresh frames ----

  /** Nothing the frame count bit procedure of b can see differs, and no transaction with b is open. */
  predicate Untouched(y: System, y': System, b: LinkAddr) {
    && b in y.p.stations && b in y.secs && b in y.rec && b in y'.p.stations && b in y'.secs && b in y'.rec
    && y'.p.stations[b].phase == y.p.stations[b].phase && y'.p.stations[b].fcb == y.p.stations[b].fcb
    && y'.secs[b] == y.secs[b]
    && y'.rec[b].sent == y.rec[b].sent && y'.rec[b].acted == y.rec[b].acted
    && y'.rec[b].answered == y.rec[b].answered && y'.rec[b].abandoned == y.rec[b].abandoned
    && !Awaits(y.p, b) && !Awaits(y'.p, b)
  }

  lemma UntouchedView(y: System, y': System, b: LinkAddr)
    requires Untouched(y, y', b)
    ensures View(y', b) == View(y, b)
  {
  }

  /** Only the link with a changes, and it stays good. */
  lemma OneLinkChanged(c: Setup, y: System, y': System, a: LinkAddr)
    requires Invariant(c, y) && Stations(c, y') && OnLine(y')
    requires y'.secs.Keys == y.secs.Keys
    requires a in y.secs ==> FC.Good(View(y', a))
    requires forall b :: b in y.secs && b != a ==> Untouched(y, y', b)
    ensures Invariant(c, y')
  {
    forall b | b in y'.secs ensures FC.Good(View(y', b)) {
      if b != a { UntouchedView(y, y', b); }
    }
  }

  /** No link changes. */
  lemma NoLinkChanged(c: Setup, y: System, y': System)
    requires Invariant(c, y) && Stations(c, y') && OnLine(y')
    requires y'.secs.Keys == y.secs.Keys
    requires forall b :: b in y.secs ==> View(y', b) == View(y, b)
    ensures Invariant(c, y')
  {
  }

  lemma FreshShape(c: Setup, y: System, t: Turn)
    requires c.primary.profile.Cs101? && Stations(c, y) && OnLine(y) && FreshTurn(c.primary, y.p, t) && t.out != []
    ensures Stations(c, Issued(y, t)) && OnLine(Issued(y, t)) && Issued(y, t).secs == y.secs
  {
  }

  lemma FreshOthers(c: Setup, y: System, t: Turn)
    requires c.primary.profile.Cs101? && Stations(c, y) && OnLine(y) && FreshTurn(c.primary, y.p, t) && t.out != []
    ensures var y' := Issued(y, t);
      && Stations(c, y') && OnLine(y') && y'.secs == y.secs
      && forall b :: b in y.secs && b != t.out[0].linkAddr ==> Untouched(y, y', b)
  {
    FreshShape(c, y, t);
  }

  lemma FreshIssue(c: Setup, y: System, t: Turn)
    requires c.primary.profile.Cs101? && Stations(c, y) && OnLine(y) && FreshTurn(c.primary, y.p, t) && t.out != []
    ensures var f := t.out[0];
      && Issued(y, t).p.stations.Keys == y.p.stations.Keys && Issued(y, t).rec.Keys == y.rec.Keys
      && FC.MayIssue(View(y, f.linkAddr), FC.Outstanding(KindOf(f), f))
      && View(Issued(y, t), f.linkAddr) == FC.Issue(View(y, f.linkAddr), FC.Outstanding(KindOf(f), f))
  {
    var f, y' := t.out[0], Issued(y, t);
    var a := f.linkAddr;
    FreshMayIssue(c, y, t);
    assert y'.rec[a] == if CountsFrames(f) then y.rec[a].(sent := y.rec[a].sent + [f]) else y.rec[a];
    assert KindOf(f).Counted? <==> CountsFrames(f);
    assert View(y', a).out == Some(FC.Outstanding(KindOf(f), f)) && View(y', a).attempt == FC.Down;
  }

  lemma FreshMayIssue(c: Setup, y: System, t: Turn)
    requires c.primary.profile.Cs101? && Stations(c, y) && OnLine(y) && FreshTurn(c.primary, y.p, t) && t.out != []
    ensures var f := t.out[0];
      FC.MayIssue(View(y, f.linkAddr), FC.Outstanding(KindOf(f), f))
  {
  }

  lemma QuietTurn(c: Setup, y: System, t: Turn)
    requires c.Valid() && Invariant(c, y) && FreshTurn(c.primary, y.p, t) && t.out == []
    ensures Invariant(c, Issued(y, t))
  {
    var y' := Issued(y, t);
    forall b | b in y.secs ensures View(y', b) == View(y, b) { }
    NoLinkChanged(c, y, y');
  }

  lemma FreshKeeps(c: Setup, y: System, t: Turn)
    requires c.Valid() && Invariant(c, y) && FreshTurn(c.primary, y.p, t)
    ensures Invariant(c, Issued(y, t))
  {
    if t.out == [] {
      QuietTurn(c, y, t);
    } else {
      var f := t.out[0];
      FreshIssue(c, y, t);
      FreshOthers(c, y, t);
      FC.IssueKeeps(View(y, f.linkAddr), FC.Outstanding(KindOf(f), f));
      OneLinkChanged(c, y, Issued(y, t), f.linkAddr);
    }
  }

  // ---- the end of an attempt ----

  lemma LostKeeps(c: Setup, y: System)
    requires Invariant(c, y)
    ensures Invariant(c, y.(line := Line.Idle))
  {
    var y' := y.(line := Line.Idle);
    forall a | a in y'.secs ensures FC.Good(View(y', a)) {
      FC.LoseKeeps(View(y, a));
      assert View(y', a) == FC.Lose(View(y, a));
    }
  }

  predicate OnlyRecord(rec: map<LinkAddr, Record>, rec': map<LinkAddr, Record>, a: LinkAddr) {
    && rec'.Keys == rec.Keys
    && forall b :: b in rec && b != a ==> rec'[b] == rec[b]
  }

  /** The outstanding transaction ends, or is repeated. */
  lemma PrimaryOnlyShape(c: Setup, y: System, p1: Primary, line: Line, rec: map<LinkAddr, Record>, ended: bool)
    requires Stations(c, y) && OnLine(y) && y.p.lastSent.Some?
    requires OnlyStation(y.p, p1, y.p.lastSent.value.addr) && OnlyRecord(y.rec, rec, y.p.lastSent.value.addr)
    requires p1.lastSent == y.p.lastSent || p1.lastSent.None?
    requires line.Idle? || (line == Down(y.p.lastSent.value.frame) && p1.lastSent.Some?)
    ensures var y' := y.(p := p1, line := line, rec := rec, ended := ended);
      Stations(c, y') && OnLine(y')
  {
  }

  lemma PrimaryOnlyOthers(c: Setup, y: System, p1: Primary, line: Line, rec: map<LinkAddr, Record>, ended: bool)
    requires Stations(c, y) && OnLine(y) && y.p.lastSent.Some?
    requires OnlyStation(y.p, p1, y.p.lastSent.value.addr) && OnlyRecord(y.rec, rec, y.p.lastSent.value.addr)
    requires p1.lastSent == y.p.lastSent || p1.lastSent.None?
    requires line.Idle? || (line == Down(y.p.lastSent.value.frame) && p1.lastSent.Some?)
    ensures var y' := y.(p := p1, line := line, rec := rec, ended := ended);
      && Stations(c, y') && OnLine(y')
      && forall b :: b in y.secs && b != y.p.lastSent.value.addr ==> Untouched(y, y', b)
  {
    PrimaryOnlyShape(c, y, p1, line, rec, ended);
  }

  lemma AbandonedRecord(y: System, a: LinkAddr, f: Frame)
    requires a in y.rec
    ensures OnlyRecord(y.rec, Abandoned(y, a, f), a)
    ensures Abandoned(y, a, f)[a] == GivenUp(y.rec[a], f)
  {
  }

  lemma GiveUpLink(c: Setup, y: System, p1: Primary, rec: map<LinkAddr, Record>, ended: bool, a: LinkAddr)
    requires Stations(c, y) && Awaits(y.p, a) && EndsBy(y.p, p1, Fails)
    requires OnLine(y) && a in rec && rec[a] == GivenUp(y.rec[a], y.p.lastSent.value.frame)
    ensures View(y.(p := p1, line := Line.Idle, rec := rec, ended := ended), a) == FC.GiveUp(View(y, a))
  {
  }

  lemma RetryLinkKeeps(c: Setup, y: System, p1: Primary)
    requires Invariant(c, y) && y.line.Idle? && y.p.lastSent.Some? && EndsBy(y.p, p1, Ignores)
    ensures Invariant(c, y.(p := p1, line := Down(y.p.lastSent.value.frame)))
  {
    var a := y.p.lastSent.value.addr;
    var y' := y.(p := p1, line := Down(y.p.lastSent.value.frame));
    PrimaryOnlyOthers(c, y, p1, y'.line, y.rec, y.ended);
    assert View(y', a) == FC.Retry(View(y, a));
    FC.RetryKeeps(View(y, a));
    OneLinkChanged(c, y, y', a);
  }

  lemma GiveUpLinkKeeps(c: Setup, y: System, p1: Primary, ended: bool)
    requires Invariant(c, y) && y.p.lastSent.Some? && EndsBy(y.p, p1, Fails)
    ensures Invariant(c, y.(p := p1, line := Line.Idle, rec := Abandoned(y, y.p.lastSent.value.addr, y.p.lastSent.value.frame), ended := ended))
  {
    var a := y.p.lastSent.value.addr;
    var y' := y.(p := p1, line := Line.Idle, rec := Abandoned(y, a, y.p.lastSent.value.frame), ended := ended);
    AbandonedRecord(y, a, y.p.lastSent.value.frame);
    GiveUpLink(c, y, p1, y'.rec, ended, a);
    PrimaryOnlyOthers(c, y, p1, Line.Idle, y'.rec, ended);
    FC.GiveUpKeeps(View(y, a));
    OneLinkChanged(c, y, y', a);
  }

  lemma OverdueKeeps(c: Setup, y: System)
    requires Invariant(c, y) && y.line.Idle?
    ensures Invariant(c, Overdue(c, y))
  {
    if y.p.lastSent.None? {
      NoLinkChanged(c, y, Overdue(c, y));
    } else {
      var a := y.p.lastSent.value.addr;
      var (t, fatal) := OnT1(c.primary, y.p);
      OverdueEnds(c.primary, y.p);
      if y.p.retryCount < c.primary.maxRepetitions {
        RetryLinkKeeps(c, y, t.p);
      } else {
        GiveUpLinkKeeps(c, y, t.p, fatal);
      }
    }
  }

  // ---- a frame reaches the stations ----

  /** A station that is not addressed neither answers nor changes. */
  lemma OthersSilent(c: Setup, y: System, f: Frame, b: LinkAddr)
    requires c.Valid() && Stations(c, y) && b in y.secs
    requires !f.SingleCharAck? && f.linkAddr != b && f.linkAddr in y.secs
    ensures SS.HandleFrame(c.secondary(b), y.secs[b], y.bufs[b], f) == SS.Outcome(y.secs[b], y.bufs[b], [], None, false)
  {
    assert y.secs[f.linkAddr].linkAddr == f.linkAddr;
  }

  /** The frame on the line arrives: y' is what the stations and the observers make of it. */
  lemma FrameOthers(c: Setup, y: System, y': System, a: LinkAddr)
    requires c.Valid() && Stations(c, y) && OnLine(y) && y.line.Down? && y.p.lastSent.value.addr == a
    requires y' == FrameArrives(c, y, y.line.frame)
    ensures y'.p == y.p && y'.secs.Keys == y.secs.Keys && OnlyRecord(y.rec, y'.rec, a) && y'.bufs.Keys == y.bufs.Keys
    ensures forall b :: b in y.secs && b != a ==> y'.secs[b] == y.secs[b] && y'.bufs[b] == y.bufs[b]
  {
    FrameKeys(c, y, y', a);
    forall b | b in y.secs && b != a ensures y'.secs[b] == y.secs[b] && y'.bufs[b] == y.bufs[b] {
      OtherStation(c, y, y', a, b);
    }
  }

  lemma FrameKeys(c: Setup, y: System, y': System, a: LinkAddr)
    requires Stations(c, y) && OnLine(y) && y.line.Down? && y.p.lastSent.value.addr == a
    requires y' == FrameArrives(c, y, y.line.frame)
    ensures y'.p == y.p && y'.secs.Keys == y.secs.Keys && OnlyRecord(y.rec, y'.rec, a) && y'.bufs.Keys == y.bufs.Keys
  {
    NotedOnly(y.rec, a, RecordActing(c.secondary(a), RecordOf(y, a), y.secs[a], y.bufs[a], y.line.frame));
  }

  lemma NotedOnly(rec: map<LinkAddr, Record>, a: LinkAddr, r: Record)
    ensures OnlyRecord(rec, Noted(rec, a, r), a)
  {
  }

  lemma OtherStation(c: Setup, y: System, y': System, a: LinkAddr, b: LinkAddr)
    requires c.Valid() && Stations(c, y) && OnLine(y) && y.line.Down? && y.p.lastSent.value.addr == a
    requires y' == FrameArrives(c, y, y.line.frame) && b in y.secs && b != a
    ensures y'.secs[b] == y.secs[b] && y'.bufs[b] == y.bufs[b]
  {
    OthersSilent(c, y, y.line.frame, b);
  }

  lemma FrameAtStation(c: Setup, y: System, y': System, a: LinkAddr)
    requires c.Valid() && Stations(c, y) && OnLine(y) && y.line.Down? && y.p.lastSent.value.addr == a
    requires y' == FrameArrives(c, y, y.line.frame)
    ensures a in y'.secs && a in y'.rec
    ensures var o := SS.HandleFrame(c.secondary(a), y.secs[a], y.bufs[a], y.line.frame);
      && Served(y.secs[a], o, y.line.frame) && y'.secs[a] == o.s && y'.bufs[a] == o.b && y'.line == Up(o.out[0])
      && y'.rec[a] == RecordActing(c.secondary(a), y.rec[a], y.secs[a], y.bufs[a], y.line.frame)
  {
    StationServes(c.secondary(a), y.secs[a], y.bufs[a], y.line.frame);
  }

  lemma ServedLink(c: Setup, y: System, y': System, a: LinkAddr, o: SS.Outcome, f: Frame)
    requires Stations(c, y) && OnLine(y) && y.line == Down(f) && y.p.lastSent.value.addr == a
    requires o == SS.HandleFrame(c.secondary(a), y.secs[a], y.bufs[a], f) && Served(y.secs[a], o, f)
    requires a in y'.secs && a in y'.rec && y'.p == y.p && y'.secs[a] == o.s && y'.line == Up(o.out[0])
    requires y'.rec[a] == RecordActing(c.secondary(a), y.rec[a], y.secs[a], y.bufs[a], f)
    ensures FC.Repeats(View(y, a)) && View(y, a).replay.Some? ==> View(y', a) == FC.Replay(View(y, a))
    ensures !FC.Repeats(View(y, a)) ==> View(y', a) == FC.Act(View(y, a), o.out[0])
  {
  }

  lemma FrameKeeps(c: Setup, y: System)
    requires c.Valid() && Invariant(c, y) && y.line.Down?
    ensures Invariant(c, FrameArrives(c, y, y.line.frame))
  {
    var a := y.p.lastSent.value.addr;
    var y' := FrameArrives(c, y, y.line.frame);
    var o := SS.HandleFrame(c.secondary(a), y.secs[a], y.bufs[a], y.line.frame);
    FrameOthers(c, y, y', a);
    FrameAtStation(c, y, y', a);
    ServedLink(c, y, y', a, o, y.line.frame);
    FrameShape(c, y, y', a);
    ServedGood(y, y', a, o.out[0]);
    OneLinkChanged(c, y, y', a);
  }

  /** Answered by the addressed station alone, the system keeps its shape. */
  lemma FrameShape(c: Setup, y: System, y': System, a: LinkAddr)
    requires Stations(c, y) && OnLine(y) && y.line.Down? && y.p.lastSent.value.addr == a
    requires y'.p == y.p && y'.secs.Keys == y.secs.Keys && OnlyRecord(y.rec, y'.rec, a) && y'.bufs.Keys == y.bufs.Keys
    requires forall b :: b in y.secs && b != a ==> y'.secs[b] == y.secs[b]
    requires a in y'.secs && y'.secs[a].linkAddr == a
    requires y'.secs[a].lastResp.Some? ==> ResponseFrom(y'.secs[a].lastResp.value, a)
    requires y'.line.Up? && ResponseFrom(y'.line.frame, a)
    ensures Stations(c, y') && OnLine(y')
    ensures forall b :: b in y.secs && b != a ==> Untouched(y, y', b)
  {
  }

  lemma ServedGood(y: System, y': System, a: LinkAddr, r: Frame)
    requires a in y.p.stations && a in y.secs && a in y.rec && a in y'.p.stations && a in y'.secs && a in y'.rec
    requires Awaits(y.p, a) && y.line.Down? && FC.Good(View(y, a))
    requires FC.Repeats(View(y, a)) && View(y, a).replay.Some? ==> View(y', a) == FC.Replay(View(y, a))
    requires !FC.Repeats(View(y, a)) ==> View(y', a) == FC.Act(View(y, a), r)
    ensures FC.Good(View(y', a))
  {
    if FC.Repeats(View(y, a)) {
      FC.ReplayKeeps(View(y, a));
    } else {
      FC.ActKeeps(View(y, a), r);
    }
  }

  // ---- a response reaches the primary ----

  lemma ConfirmRecord(y: System, f: Frame, r: Received)
    requires y.p.lastSent.Some? && y.p.lastSent.value.addr in y.rec && Settles(y.p, f, Confirms)
    ensures var o := y.p.lastSent.value;
      var was, now := y.rec[o.addr], RecordResponse(y, f, r);
      && OnlyRecord(y.rec, now, o.addr)
      && now[o.addr].sent == was.sent && now[o.addr].acted == was.acted && now[o.addr].abandoned == was.abandoned
      && now[o.addr].answered == (if CountsFrames(o.frame) then was.answered + [(o.frame, f)] else was.answered)
  {
  }

  lemma ConfirmLink(c: Setup, y: System, f: Frame, p1: Primary, rec: map<LinkAddr, Record>)
    requires Stations(c, y) && OnLine(y) && y.line == Up(f) && EndsBy(y.p, p1, Confirms)
    requires var o := y.p.lastSent.value;
      && o.addr in rec
      && var was, now := y.rec[o.addr], rec[o.addr];
      && now.sent == was.sent && now.acted == was.acted && now.abandoned == was.abandoned
      && now.answered == (if CountsFrames(o.frame) then was.answered + [(o.frame, f)] else was.answered)
    ensures View(y.(p := p1, line := Line.Idle, rec := rec), y.p.lastSent.value.addr)
            == FC.Confirm(View(y, y.p.lastSent.value.addr))
  {
  }

  lemma ConfirmLinkKeeps(c: Setup, y: System, f: Frame, p1: Primary, r: Received)
    requires Invariant(c, y) && y.line == Up(f) && EndsBy(y.p, p1, Confirms) && Settles(y.p, f, Confirms)
    ensures Invariant(c, y.(p := p1, line := Line.Idle, rec := RecordResponse(y, f, r)))
  {
    var a := y.p.lastSent.value.addr;
    var y' := y.(p := p1, line := Line.Idle, rec := RecordResponse(y, f, r));
    ConfirmRecord(y, f, r);
    ConfirmLink(c, y, f, p1, y'.rec);
    PrimaryOnlyOthers(c, y, p1, Line.Idle, y'.rec, y.ended);
    FC.ConfirmKeeps(View(y, a));
    OneLinkChanged(c, y, y', a);
  }

  lemma IgnoredLinkKeeps(c: Setup, y: System, p1: Primary)
    requires Invariant(c, y) && y.p.lastSent.Some? && EndsBy(y.p, p1, Ignores)
    ensures Invariant(c, y.(p := p1, line := Line.Idle))
  {
    var a := y.p.lastSent.value.addr;
    var y' := y.(p := p1, line := Line.Idle);
    PrimaryOnlyOthers(c, y, p1, Line.Idle, y.rec, y.ended);
    assert View(y', a) == FC.Lose(View(y, a));
    FC.LoseKeeps(View(y, a));
    OneLinkChanged(c, y, y', a);
  }

  function Completed(c: Setup, y: System, f: Frame, p1: Primary, r: Received): System {
    y.(p := p1, line := Line.Idle, rec := RecordResponse(y, f, r))
  }

  lemma SettledKeeps(c: Setup, y: System, f: Frame, p1: Primary, r: Received)
    requires Invariant(c, y) && y.line == Up(f) && y.p.lastSent.Some? && EndsBy(y.p, p1, Reacts(f))
    ensures Invariant(c, Completed(c, y, f, p1, r))
  {
    ReactionSettles(y.p, f, Confirms);
    ReactionSettles(y.p, f, Fails);
    match Reacts(f)
    case Confirms => ConfirmLinkKeeps(c, y, f, p1, r);
    case Fails => GiveUpLinkKeeps(c, y, p1, y.ended);
    case Ignores => IgnoredLinkKeeps(c, y, p1);
  }

  lemma ResponseKeeps(c: Setup, y: System, f: Frame)
    requires c.Valid() && Invariant(c, y) && y.line == Up(f)
    ensures Invariant(c, ResponseArrives(c, y, f))
  {
    var p1 := Settled(c.primary, y.p, f);
    var r := HandleFrame(c.primary, y.p, f);
    SettledEnds(c.primary, y.p, f);
    SettledKeeps(c, y, f, p1, r);
    ResponseIsSettledThenDemand(c.primary, y.p, f);
    DemandKeeps(c, Completed(c, y, f, p1, r), f, Turn(r.p, r.out));
    ResponseIsIssue(c, y, f, p1, r);
  }

  lemma ResponseIsIssue(c: Setup, y: System, f: Frame, p1: Primary, r: Received)
    requires r == HandleFrame(c.primary, y.p, f)
    ensures ResponseArrives(c, y, f) == Issued(Completed(c, y, f, p1, r), Turn(r.p, r.out))
  {
  }

  lemma DemandKeeps(c: Setup, y: System, f: Frame, t: Turn)
    requires c.Valid() && Invariant(c, y) && t == Demand(c.primary, y.p, f)
    ensures Invariant(c, Issued(y, t))
  {
    DemandTurnIsFresh(c.primary, y.p, f);
    FreshKeeps(c, y, t);
  }
}
