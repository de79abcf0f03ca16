/**
 Delivery on an unbalanced multi-drop line: where every message of every run is. User data of the
 primary is queued, under way, or with its station's handler; a station's own messages are in a
 class buffer, in a cached response, or with the primary.
 */
module MultiDropDelivery {
  import opened Octets
  import opened Collecting
  import opened Ft12
  import opened PrimaryStation
  import opened PrimaryTurns
  import opened Transactions
  import opened MultiDrop
  import opened MultiDropSafety
  import opened MultiDropRuns
  import FC = FrameCount
  import SS = SecondaryStation

  // ---- what a record says about data ----

  /** The user data a station answered a poll with. */
  function PollData(x: (Frame, Frame)): Option<seq<byte>> {
    if IsPoll(x.0) && x.1.Variable? && x.1.control.fun == RESP_USER_DATA then Some(x.1.asdu) else None
  }

  function PoppedData(m: SS.Popped): Option<seq<byte>> { AsduData(m.asdu) }

  function OfClass(m: SS.Popped, class2: bool): Option<Asdu> { if m.class2 == class2 then Some(m.asdu) else None }

  function InClass1(m: SS.Popped): Option<Asdu> { OfClass(m, false) }

  function InClass2(m: SS.Popped): Option<Asdu> { OfClass(m, true) }

  /** The frame side: what the frames carried is what the queue gave and the handler got. */
  predicate FrameAccounts(r: Record) {
    && Collect(r.sent, FrameData) == Collect(r.taken, AsduData)
    && r.handled == Collect(r.acted, SentData)
    && r.collected == Collect(r.answered, PollData)
    && Collect(r.acted, PollData) == Collect(r.popped, PoppedData)
  }

  /** The application side: messages are waiting, or taken, and in order. */
  predicate QueueAccounts(r: Record, b: SS.Buffers, waiting: seq<Asdu>) {
    && r.enqueued == r.taken + waiting
    && r.accepted1 == Collect(r.popped, InClass1) + b.class1
    && r.accepted2 == Collect(r.popped, InClass2) + b.class2
  }

  predicate Accounts(y: System, a: LinkAddr) {
    a in y.rec && a in y.bufs && FrameAccounts(y.rec[a]) && QueueAccounts(y.rec[a], y.bufs[a], Waiting(y.queue, a))
  }

  predicate AllAccounts(y: System) { forall a :: a in y.secs ==> Accounts(y, a) }

  // ---- what single events do to a record ----

  lemma SentFixed(r: Record, f: Frame)
    requires FrameAccounts(r) && f.Fixed?
    ensures FrameAccounts(r.(sent := r.sent + [f]))
  {
    CollectAppend(r.sent, f, FrameData);
  }

  lemma SentMessage(r: Record, f: Frame, m: Asdu)
    requires FrameAccounts(r) && FrameData(f) == AsduData(m) && m.Encodable?
    ensures FrameAccounts(r.(sent := r.sent + [f], taken := r.taken + [m]))
  {
    CollectAppend(r.sent, f, FrameData);
    CollectAppend(r.taken, m, AsduData);
  }

  lemma DroppedMessage(r: Record, m: Asdu)
    requires FrameAccounts(r) && m.Unencodable?
    ensures FrameAccounts(r.(taken := r.taken + [m]))
  {
    CollectAppend(r.taken, m, AsduData);
  }

  lemma AnsweredAppend(r: Record, x: (Frame, Frame))
    requires FrameAccounts(r)
    ensures FrameAccounts(r.(answered := r.answered + [x],
              collected := match PollData(x) case Some(u) => r.collected + [u] case None => r.collected))
  {
    CollectAppend(r.answered, x, PollData);
  }

  lemma ActedAppend(r: Record, x: (Frame, Frame), m: Option<SS.Popped>)
    requires FrameAccounts(r)
    requires PollData(x) == match m case Some(p) => PoppedData(p) case None => None
    ensures FrameAccounts(r.(acted := r.acted + [x],
              handled := match SentData(x) case Some(u) => r.handled + [u] case None => r.handled,
              popped := match m case Some(p) => r.popped + [p] case None => r.popped))
  {
    CollectAppend(r.acted, x, SentData);
    CollectAppend(r.acted, x, PollData);
    if m.Some? { CollectAppend(r.popped, m.value, PoppedData); }
  }

  lemma PopAccounts(r: Record, b: SS.Buffers, waiting: seq<Asdu>, class2: bool)
    requires QueueAccounts(r, b, waiting)
    ensures var (m, b') := SS.PopClass(b, class2);
      QueueAccounts(r.(popped := match m case Some(p) => r.popped + [p] case None => r.popped), b', waiting)
  {
    var m := SS.PopClass(b, class2).0;
    if m.Some? {
      CollectAppend(r.popped, m.value, InClass1);
      CollectAppend(r.popped, m.value, InClass2);
    }
  }

  // ---- frames issued ----

  /** The counted frame a turn issues to a station. */
  function IssuedTo(out: seq<Frame>, a: LinkAddr): seq<Frame> {
    if out != [] && !out[0].SingleCharAck? && CountsFrames(out[0]) && out[0].linkAddr == a then [out[0]] else []
  }

  lemma IssuedRecord(y: System, t: Turn, a: LinkAddr)
    requires a in y.rec
    ensures var y' := Issued(y, t);
      && y'.rec.Keys == y.rec.Keys && y'.rec[a] == y.rec[a].(sent := y.rec[a].sent + IssuedTo(t.out, a))
      && y'.queue == y.queue && y'.bufs == y.bufs && y'.secs == y.secs
  {
  }

  lemma IssuedAccounts(y: System, t: Turn)
    requires AllAccounts(y) && NoUserData(t.out)
    ensures AllAccounts(Issued(y, t))
  {
    forall a | a in y.secs ensures Accounts(Issued(y, t), a) {
      IssuedRecord(y, t, a);
      if IssuedTo(t.out, a) != [] { SentFixed(y.rec[a], t.out[0]); }
    }
  }

  lemma TickRecord(c: Setup, y: System, a: LinkAddr)
    requires WellFormed(y.p) && y.p.lastSent.None? && a in y.rec
    ensures var y', t, r := Ticked(c, y), Tick(c.primary, y.p, y.queue), y.rec[a];
      && y'.rec.Keys == y.rec.Keys && y'.queue == t.queue && y'.bufs == y.bufs && y'.secs == y.secs
      && y'.rec[a] == r.(sent := r.sent + IssuedTo(t.out, a), taken := r.taken + TakenFor(y.queue, y.p.stations, a))
  {
    var t := Tick(c.primary, y.p, y.queue);
    var rec := map b | b in y.rec :: y.rec[b].(taken := y.rec[b].taken + TakenFor(y.queue, y.p.stations, b));
    IssuedRecord(y.(queue := t.queue, rec := rec), Turn(t.p, t.out), a);
  }

  lemma TickFrames(r: Record, out: seq<Frame>, m: Option<Outgoing>, a: LinkAddr)
    requires FrameAccounts(r)
    requires if m.Some? && m.value.asdu.Encodable? then
               && |out| == 1 && out[0].Variable? && out[0].linkAddr == m.value.addr
               && out[0].asdu == m.value.asdu.octets && CountsFrames(out[0])
             else NoUserData(out)
    ensures FrameAccounts(r.(sent := r.sent + IssuedTo(out, a),
                             taken := r.taken + (if m.Some? && m.value.addr == a then [m.value.asdu] else [])))
  {
    assert r.sent + [] == r.sent && r.taken + [] == r.taken;
    if m.Some? && m.value.asdu.Encodable? {
      if m.value.addr == a { SentMessage(r, out[0], m.value.asdu); }
    } else {
      var r1 := r.(taken := r.taken + (if m.Some? && m.value.addr == a then [m.value.asdu] else []));
      if m.Some? && m.value.addr == a { DroppedMessage(r, m.value.asdu); }
      if IssuedTo(out, a) != [] { SentFixed(r1, out[0]); }
    }
  }

  lemma TickAccounts(c: Setup, y: System, a: LinkAddr)
    requires c.Valid() && Invariant(c, y) && y.p.lastSent.None? && Accounts(y, a) && a in y.secs
    ensures Accounts(Ticked(c, y), a)
  {
    var y', t := Ticked(c, y), Tick(c.primary, y.p, y.queue);
    var m := Scan(y.queue, y.p.stations).0;
    TickRecord(c, y, a);
    TickSends(c.primary, y.p, y.queue);
    TickFrames(y.rec[a], t.out, m, a);
    ScanTakesFirst(y.queue, y.p.stations, a);
    TakenFromQueue(y.rec[a], y'.rec[a], y.bufs[a], y.queue, y'.queue, y.p.stations, a);
  }

  lemma TakenFromQueue(r: Record, r': Record, b: SS.Buffers, q: seq<Outgoing>, q': seq<Outgoing>, stations: map<LinkAddr, Station>, a: LinkAddr)
    requires QueueAccounts(r, b, Waiting(q, a)) && Waiting(q, a) == TakenFor(q, stations, a) + Waiting(q', a)
    requires r' == r.(sent := r'.sent, taken := r.taken + TakenFor(q, stations, a))
    ensures QueueAccounts(r', b, Waiting(q', a))
  {
  }

  // ---- the applications ----

  lemma EnqueueAccounts(y: System, asdu: Asdu, b: LinkAddr)
    requires AllAccounts(y)
    ensures AllAccounts(Enqueued(y, asdu, b))
  {
    var y' := Enqueued(y, asdu, b);
    forall a | a in y.secs ensures Accounts(y', a) {
      WaitingAppend(y.queue, Outgoing(asdu, b), a);
      assert y'.rec[a] == y.rec[a].(enqueued := y'.rec[a].enqueued);
      assert y'.rec[a].enqueued == y.rec[a].enqueued + (if b == a then [asdu] else []);
    }
  }

  lemma OfferAccounts(c: Setup, y: System, b: LinkAddr, m: SS.Message)
    requires c.Valid() && AllAccounts(y) && y.bufs.Keys == y.rec.Keys
    ensures AllAccounts(Offered(c, y, b, m))
  {
  }

  // ---- the line ----

  lemma AbandonedAccounts(y: System, a: LinkAddr, f: Frame)
    requires AllAccounts(y)
    ensures AllAccounts(y.(rec := Abandoned(y, a, f)))
  {
  }

  lemma OverdueRecord(c: Setup, y: System)
    ensures var y' := Overdue(c, y);
      && y'.queue == y.queue && y'.bufs == y.bufs && y'.secs == y.secs
      && y'.rec == if y.p.lastSent.Some? && y.p.retryCount >= c.primary.maxRepetitions
                   then Abandoned(y, y.p.lastSent.value.addr, y.p.lastSent.value.frame) else y.rec
  {
  }

  lemma OverdueAccounts(c: Setup, y: System)
    requires AllAccounts(y)
    ensures AllAccounts(Overdue(c, y))
  {
    OverdueRecord(c, y);
    if y.p.lastSent.Some? { AbandonedAccounts(y, y.p.lastSent.value.addr, y.p.lastSent.value.frame); }
  }

  /** A station acts on a new frame: its handler gets what the frame carried, and a poll takes what it answers. */
  lemma ActingAccounts(c: SS.Config, r: Record, s: SS.Secondary, b: SS.Buffers, f: Frame, waiting: seq<Asdu>)
    requires c.Valid() && PrimaryFrame(f, s.linkAddr) && SS.Broadcast(c) != Some(s.linkAddr)
    requires FrameAccounts(r) && QueueAccounts(r, b, waiting)
    ensures var r', o := RecordActing(c, r, s, b, f), SS.HandleFrame(c, s, b, f);
      FrameAccounts(r') && QueueAccounts(r', o.b, waiting)
  {
    var o := SS.HandleFrame(c, s, b, f);
    assert o == SS.OnPrimary(c, s, b, f);
    if IsNew(s, f) {
      NewFrameServed(c, s, b, f);
      if IsPoll(f) {
        var m := SS.PopClass(b, f.control.fun == REQ_DATA2).0;
        PopAccounts(r, b, waiting, f.control.fun == REQ_DATA2);
        ActedAppend(r, (f, o.out[0]), m);
      } else {
        ActedAppend(r, (f, o.out[0]), None);
      }
    } else {
      OldFrameServed(c, s, b, f);
    }
  }

  lemma NewFrameServed(c: SS.Config, s: SS.Secondary, b: SS.Buffers, f: Frame)
    requires PrimaryFrame(f, s.linkAddr) && IsNew(s, f)
    ensures var o := SS.OnPrimary(c, s, b, f);
      && |o.out| == 1 && o.asdu == FrameData(f)
      && if IsPoll(f) then
           var (m, b') := SS.PopClass(b, f.control.fun == REQ_DATA2);
           && o.b == b'
           && PollData((f, o.out[0])) == (match m case Some(p) => PoppedData(p) case None => None)
         else o.b == b
  {
  }

  lemma OldFrameServed(c: SS.Config, s: SS.Secondary, b: SS.Buffers, f: Frame)
    requires PrimaryFrame(f, s.linkAddr) && !IsNew(s, f)
    ensures var o := SS.OnPrimary(c, s, b, f); o.asdu.None? && o.b == b
  {
  }

  lemma FrameArrivesAccounts(c: Setup, y: System)
    requires c.Valid() && Invariant(c, y) && y.line.Down? && AllAccounts(y)
    ensures AllAccounts(FrameArrives(c, y, y.line.frame))
  {
    var y' := FrameArrives(c, y, y.line.frame);
    var a := y.p.lastSent.value.addr;
    FrameOthers(c, y, y', a);
    FrameAtStation(c, y, y', a);
    ActingAccounts(c.secondary(a), y.rec[a], y.secs[a], y.bufs[a], y.line.frame, Waiting(y.queue, a));
    OneRecordChanged(y, y', a);
  }

  lemma OneRecordChanged(y: System, y': System, a: LinkAddr)
    requires AllAccounts(y) && y'.queue == y.queue && y'.secs.Keys == y.secs.Keys && y'.bufs.Keys == y.bufs.Keys
    requires OnlyRecord(y.rec, y'.rec, a) && (a in y.secs ==> Accounts(y', a))
    requires forall b :: b in y.bufs && b != a ==> y'.bufs[b] == y.bufs[b]
    ensures AllAccounts(y')
  {
    forall b | b in y'.secs ensures Accounts(y', b) {
      if b != a { assert Accounts(y, b); }
    }
  }

  lemma ResponseRecordConfirms(y: System, f: Frame, r: Received)
    requires y.p.lastSent.Some? && y.p.lastSent.value.addr in y.rec && Settles(y.p, f, Confirms) && AllAccounts(y)
    requires Delivered(f, r) == PollData((y.p.lastSent.value.frame, f))
    requires !CountsFrames(y.p.lastSent.value.frame) ==> Delivered(f, r).None?
    ensures AllAccounts(y.(rec := RecordResponse(y, f, r))) && RecordResponse(y, f, r).Keys == y.rec.Keys
  {
    var o := y.p.lastSent.value;
    if o.addr in y.secs {
      AnsweredAppend(y.rec[o.addr], (o.frame, f));
    }
    OneRecordChanged(y, y.(rec := RecordResponse(y, f, r)), o.addr);
  }

  lemma ResponseRecord(c: Setup, y: System, f: Frame, r: Received)
    requires c.Valid() && WellFormed(y.p) && y.line == Up(f) && OnLine(y) && AllAccounts(y)
    requires r == HandleFrame(c.primary, y.p, f)
    requires y.p.stations.Keys == y.rec.Keys
    ensures AllAccounts(y.(rec := RecordResponse(y, f, r))) && RecordResponse(y, f, r).Keys == y.rec.Keys
  {
    if Settles(y.p, f, Confirms) {
      DeliveryMatchesPoll(c.primary, y.p, f);
      ResponseRecordConfirms(y, f, r);
    }
  }

  lemma DeliveryMatchesPoll(c: Settings, p: Primary, f: Frame)
    requires WellFormed(p) && !c.balanced && Settles(p, f, Confirms)
    requires PrimaryFrame(p.lastSent.value.frame, p.lastSent.value.addr) && p.lastSent.value.ctrl == p.lastSent.value.frame.control
    ensures var r := HandleFrame(c, p, f);
      && Delivered(f, r) == PollData((p.lastSent.value.frame, f))
      && (!CountsFrames(p.lastSent.value.frame) ==> Delivered(f, r).None?)
  {
  }

  lemma ResponseAccounts(c: Setup, y: System, f: Frame)
    requires c.Valid() && Invariant(c, y) && y.line == Up(f) && AllAccounts(y)
    ensures AllAccounts(ResponseArrives(c, y, f))
  {
    var r := HandleFrame(c.primary, y.p, f);
    ResponseRecord(c, y, f, r);
    var y1 := y.(line := Line.Idle, rec := RecordResponse(y, f, r));
    assert forall a :: Accounts(y1, a) <==> Accounts(y.(rec := RecordResponse(y, f, r)), a);
    ResponseIssuesFixed(c.primary, y.p, f);
    IssuedAccounts(y1, Turn(r.p, r.out));
  }

  lemma ResponseIssuesFixed(c: Settings, p: Primary, f: Frame)
    requires !c.balanced
    ensures NoUserData(HandleFrame(c, p, f).out)
  {
  }

  // ---- whole runs ----

  lemma StartAccounts(c: Setup)
    requires c.Valid()
    ensures AllAccounts(Start(c))
  {
  }

  lemma IdleAccounts(c: Setup, y: System)
    requires AllAccounts(y)
    ensures AllAccounts(Issued(y, OnT3(c.primary, y.p)))
  {
    IssuedAccounts(y, OnT3(c.primary, y.p));
  }

  lemma ManualAccounts(c: Setup, y: System, fun: Nibble, a: LinkAddr)
    requires AllAccounts(y)
    ensures AllAccounts(Issued(y, LinkRequest(c.primary, y.p, fun, a)))
  {
    IssuedAccounts(y, LinkRequest(c.primary, y.p, fun, a));
  }

  lemma TickedAccounts(c: Setup, y: System)
    requires c.Valid() && Invariant(c, y) && AllAccounts(y)
    ensures AllAccounts(Ticked(c, y))
  {
    if y.p.lastSent.None? {
      forall a | a in y.secs ensures Accounts(Ticked(c, y), a) {
        TickAccounts(c, y, a);
      }
      TickRecordSecs(c, y);
    }
  }

  lemma ArrivalAccounts(c: Setup, y: System)
    requires c.Valid() && Invariant(c, y) && AllAccounts(y)
    ensures Sound(y) && AllAccounts(Arrived(c, y))
  {
    if y.line.Down? {
      FrameArrivesAccounts(c, y);
      assert Arrived(c, y) == FrameArrives(c, y, y.line.frame);
    } else if y.line.Up? && !y.ended {
      ResponseAccounts(c, y, y.line.frame);
      assert Arrived(c, y) == ResponseArrives(c, y, y.line.frame);
    }
  }

  lemma StepAccounts(c: Setup, y: System, e: Event)
    requires c.Valid() && Invariant(c, y) && AllAccounts(y)
    ensures Sound(y) && AllAccounts(Step(c, y, e))
  {
    match e
    case Enqueue(asdu, a) => EnqueueAccounts(y, asdu, a);
    case Offer(a, m) => OfferAccounts(c, y, a, m);
    case Lost =>
    case Arrives => ArrivalAccounts(c, y);
    case TickFires => TickedAccounts(c, y);
    case IdleFires => IdleAccounts(c, y);
    case Manual(fun) => ManualAccounts(c, y, fun, c.primary.defaultAddr);
    case ResponseOverdue => OverdueAccounts(c, y);
  }

  lemma {:induction false} RunAccounts(c: Setup, y: System, es: seq<Event>)
    requires c.Valid() && Invariant(c, y) && AllAccounts(y)
    ensures AllAccounts(RunFrom(c, y, es)) && RunFrom(c, y, es).secs.Keys == y.secs.Keys
    decreases |es|
  {
    if es != [] {
      StepKeeps(c, y, es[0]);
      StepAccounts(c, y, es[0]);
      StepStations(c, y, es[0]);
      var y1 := Step(c, y, es[0]);
      RunAccounts(c, y1, es[1..]);
      assert RunFrom(c, y, es) == RunFrom(c, y1, es[1..]);
    }
  }

  /** After any run, every station is there and its accounts balance. */
  lemma Balanced(c: Setup, es: seq<Event>, a: LinkAddr)
    requires c.Valid() && a in c.order
    ensures a in Run(c, es).secs && Accounts(Run(c, es), a)
  {
    StartInvariant(c);
    StartAccounts(c);
    RunAccounts(c, Start(c), es);
  }

  function PollFrame(f: Frame): Option<Frame> { if IsPoll(f) then Some(f) else None }

  lemma HandledInOrder(y: System, a: LinkAddr)
    requires a in y.p.stations && a in y.secs && Accounts(y, a) && FC.Good(View(y, a))
    ensures var r := y.rec[a];
      && Subsequence(r.handled, Collect(r.taken, AsduData))
      && Subsequence(Collect(r.answered, SentData), r.handled)
      && |Collect(r.taken, AsduData)|
         == |Collect(r.answered, SentData)| + |Collect(r.abandoned, FrameData)| + FC.UnderWay(View(y, a), FrameData)
  {
    var r := y.rec[a];
    FC.Promise(View(y, a));
    FC.NothingElseMissing(View(y, a), FrameData);
    CollectFirsts(r.acted);
    CollectSame(r.answered);
    SubsequenceCollect(FC.Firsts(r.acted), r.sent, FrameData);
    SubsequenceCollect(r.answered, r.acted, SentData);
  }

  /**
   User data to a station. Its handler is given each message at most once and in queue order: what
   it was given is a subsequence of the encodable messages taken off the queue, and what is still
   queued follows them. Messages the primary saw confirmed are a subsequence of those handled. The
   account is exact: every message taken is confirmed, or its own transaction was abandoned, which
   restarts the link, or it is the one under way.
   */
  lemma UserDataDelivered(c: Setup, es: seq<Event>, a: LinkAddr)
    requires c.Valid() && a in c.order
    ensures var y := Run(c, es);
      && a in y.rec && a in y.p.stations && a in y.secs
      && var r := y.rec[a];
      && r.enqueued == r.taken + Waiting(y.queue, a)
      && Subsequence(r.handled, Collect(r.taken, AsduData))
      && Subsequence(Collect(r.answered, SentData), r.handled)
      && |Collect(r.taken, AsduData)|
         == |Collect(r.answered, SentData)| + |Collect(r.abandoned, FrameData)| + FC.UnderWay(View(y, a), FrameData)
  {
    Balanced(c, es, a);
    HandledInOrder(Run(c, es), a);
  }

  /**
   Frame by frame: one entry for every counted frame issued to the station, in order, saying with
   what answer it was acted on, once or not at all, and whether it was confirmed. A confirmed frame
   was acted on, so it was delivered exactly once, and its confirmation is that answer. Only
   abandoned frames are unconfirmed, besides the one under way, which, if it has been acted on, was
   answered with what the station still has cached.
   */
  lemma ConfirmedExactlyOnce(c: Setup, es: seq<Event>, a: LinkAddr)
    requires c.Valid() && a in c.order
    ensures var y := Run(c, es);
      && a in y.rec && a in y.p.stations && a in y.secs
      && exists log :: FC.Explains(log, y.rec[a].sent, y.rec[a].acted, y.rec[a].answered) && FC.Current(log, View(y, a))
  {
    Balanced(c, es, a);
    assert FC.Good(View(Run(c, es), a));
  }

  /**
   Data of a station. What it accepted is, class by class and in order, what polls took followed by
   what is still buffered. The primary delivered a subsequence of what polls took: each message at
   most once and in that order, and all but the unencodable, one per abandoned class poll and one in
   the cached response of a poll under way.
   */
  lemma PolledDataConserved(c: Setup, es: seq<Event>, a: LinkAddr)
    requires c.Valid() && a in c.order
    ensures var y := Run(c, es);
      && a in y.rec && a in y.bufs && a in y.p.stations && a in y.secs
      && var r := y.rec[a];
      && r.accepted1 == Collect(r.popped, InClass1) + y.bufs[a].class1
      && r.accepted2 == Collect(r.popped, InClass2) + y.bufs[a].class2
      && Subsequence(r.collected, Collect(r.popped, PoppedData))
      && |Collect(r.popped, PoppedData)|
         <= |r.collected| + |Collect(r.abandoned, PollFrame)| + FC.UnderWay(View(y, a), PollFrame)
  {
    Balanced(c, es, a);
    PolledInOrder(Run(c, es), a);
  }

  lemma PolledInOrder(y: System, a: LinkAddr)
    requires a in y.p.stations && a in y.secs && Accounts(y, a) && FC.Good(View(y, a))
    ensures var r := y.rec[a];
      && Subsequence(r.collected, Collect(r.popped, PoppedData))
      && |Collect(r.popped, PoppedData)|
         <= |r.collected| + |Collect(r.abandoned, PollFrame)| + FC.UnderWay(View(y, a), PollFrame)
  {
    FC.Promise(View(y, a));
    SubsequenceCollect(y.rec[a].answered, y.rec[a].acted, PollData);
    assert FC.BroughtBy(PollData, PollFrame);
    FC.NoOtherAnswerMissed(View(y, a), PollData, PollFrame);
  }
}
