/** Whole runs of a balanced line: delivery in each direction, and the independence of the two. */
module BalancedDelivery {
  import opened Octets
  import opened Collecting
  import opened Ft12
  import opened PrimaryStation
  import opened PrimaryTurns
  import opened Transactions
  import opened Balanced
  import opened BalancedSafety
  import FC = FrameCount
  import SS = SecondaryStation

  // ---- every step ----

  function DirectionOf(e: Event): Direction {
    match e
    case Enqueue(_) => FromA
    case Offer(_) => FromB
    case TickA => FromA
    case IdleFires => FromA
    case Manual(_) => FromA
    case TickB(_) => FromB
    case Overdue(d) => d
    case Lost(d) => d
    case Arrives(d) => d
  }

  /** The invariant holds, and the procedure of the other direction has not moved. */
  ghost predicate Keeps(c: Setup, y: System, y': System, d: Direction)
    requires Invariant(c, y)
  {
    && Invariant(c, y')
    && (d.FromA? ==> ViewB(c, y') == ViewB(c, y))
    && (d.FromB? ==> ViewA(c, y') == ViewA(c, y))
  }

  lemma ArrivalKeeps(c: Setup, y: System, d: Direction)
    requires c.Valid() && Invariant(c, y)
    ensures Keeps(c, y, Step(c, y, Arrives(d)), d)
  {
    match d
    case FromA => ArrivalAKeeps(c, y);
    case FromB => ArrivalBKeeps(c, y);
  }

  lemma ArrivalAKeeps(c: Setup, y: System)
    requires c.Valid() && Invariant(c, y)
    ensures Keeps(c, y, ArrivedFromA(c, y), FromA)
  {
    if y.fromA.Down? {
      FrameAtBKeeps(c, y, y.fromA.frame);
      assert ArrivedFromA(c, y) == FrameAtB(c, y, y.fromA.frame);
    } else if y.fromA.Up? && !y.ended {
      ResponseAtAKeeps(c, y, y.fromA.frame);
      assert ArrivedFromA(c, y) == ResponseAtA(c, y, y.fromA.frame);
    } else {
      LostAKeeps(c, y);
      assert ArrivedFromA(c, y) == y.(fromA := Line.Idle);
    }
  }

  lemma ArrivalBKeeps(c: Setup, y: System)
    requires c.Valid() && Invariant(c, y)
    ensures Keeps(c, y, ArrivedFromB(c, y), FromB)
  {
    if y.fromB.Up? {
      ResponseAtBKeeps(c, y, y.fromB.frame);
      assert ArrivedFromB(c, y) == ResponseAtB(c, y, y.fromB.frame);
    } else if y.fromB.Down? && !y.ended {
      FrameAtAKeeps(c, y, y.fromB.frame);
      assert ArrivedFromB(c, y) == FrameAtA(c, y, y.fromB.frame);
    } else {
      LostBKeeps(c, y);
      assert ArrivedFromB(c, y) == y.(fromB := Line.Idle);
    }
  }

  lemma OfferKeeps(c: Setup, y: System, m: SS.Message)
    requires Invariant(c, y)
    ensures Keeps(c, y, Offered(c, y, m), FromB)
  {
    var y' := Offered(c, y, m);
    assert ViewA(c, y') == ViewA(c, y) && ViewB(c, y') == ViewB(c, y);
  }

  /**
   Every event keeps both directions good, and moves only its own: the frame count bit of one
   direction does not depend on the traffic of the other.
   */
  lemma StepKeeps(c: Setup, y: System, e: Event)
    requires c.Valid() && Invariant(c, y)
    ensures Keeps(c, y, Step(c, y, e), DirectionOf(e))
  {
    match e
    case Enqueue(asdu) =>
      QueueIrrelevant(c, y, y.queue + [Outgoing(asdu, c.addr)], y.recA.(queued := y.recA.queued + [asdu]));
    case Offer(m) => OfferKeeps(c, y, m);
    case TickA => TickAKeeps(c, y);
    case IdleFires =>
      KeepAliveIsFresh(c.primary, y.p);
      IssuedKeeps(c, y, OnT3(c.primary, y.p));
    case Manual(fun) =>
      ManualIsFresh(c.primary, y.p, fun, c.primary.defaultAddr);
      IssuedKeeps(c, y, LinkRequest(c.primary, y.p, fun, c.primary.defaultAddr));
    case TickB(initDue) => if y.s.primOut.None? { TickBKeeps(c, y, initDue); }
    case Overdue(d) => OverdueKeeps(c, y, d);
    case Lost(d) => if d.FromA? { LostAKeeps(c, y); } else { LostBKeeps(c, y); }
    case Arrives(d) => ArrivalKeeps(c, y, d);
  }

  lemma OverdueKeeps(c: Setup, y: System, d: Direction)
    requires c.Valid() && Invariant(c, y)
    ensures Keeps(c, y, Step(c, y, Overdue(d)), d)
  {
    if d.FromA? {
      if y.fromA.Idle? { OverdueAKeeps(c, y); }
    } else {
      if y.fromB.Idle? { OverdueBKeeps(c, y); }
    }
  }

  lemma StartInvariant(c: Setup)
    requires c.Valid()
    ensures Invariant(c, Start(c))
  {
    FC.StartGood<Frame, Frame>(None);
    FC.StartGood<Frame, Frame>(Some(PeerAck(c.primary, CONF_ACK, c.addr)));
    assert ViewA(c, Start(c)) == FC.Start(None);
    assert ViewB(c, Start(c)) == FC.Start(Some(PeerAck(c.primary, CONF_ACK, c.addr)));
  }

  // ---- where every message is ----

  /** What the frames carried is what the queue gave, and what the application was given. */
  predicate FrameAccounts(r: Record) {
    && Collect(r.sent, FrameData) == Collect(r.taken, AsduData)
    && r.handled == Collect(r.acted, SentData)
  }

  predicate AccountsA(c: Setup, y: System) {
    FrameAccounts(y.recA) && y.recA.queued == y.recA.taken + Waiting(y.queue, c.addr)
  }

  predicate AccountsB(y: System) {
    FrameAccounts(y.recB) && y.recB.queued == y.recB.taken + y.b.primQueue
  }

  predicate Accounts(c: Setup, y: System) { AccountsA(c, y) && AccountsB(y) }

  /** A counted frame leaves, with a message or without. */
  lemma IssueAccounts(r: Record, f: Frame, m: seq<Asdu>)
    requires FrameAccounts(r) && |m| <= 1
    requires !f.SingleCharAck? && (f.Variable? ==> f.control.fcv)
    requires FrameData(f) == if m == [] then None else AsduData(m[0])
    ensures FrameAccounts(Issue(r.(taken := r.taken + m), f))
  {
    assert r.taken + [] == r.taken;
    CollectAppend(r.sent, f, FrameData);
    if m != [] {
      assert m == [m[0]];
      CollectAppend(r.taken, m[0], AsduData);
    }
  }

  lemma DropAccounts(r: Record, m: Asdu)
    requires FrameAccounts(r) && m.Unencodable?
    ensures FrameAccounts(r.(taken := r.taken + [m]))
  {
    CollectAppend(r.taken, m, AsduData);
  }

  lemma ActedAccounts(r: Record, isNew: bool, f: Frame, out: seq<Frame>, u: Option<seq<byte>>)
    requires FrameAccounts(r) && u == if isNew && out != [] then FrameData(f) else None
    ensures FrameAccounts(Handled(Acted(r, isNew, f, out), u))
  {
    if isNew && out != [] { CollectAppend(r.acted, (f, out[0]), SentData); }
  }

  lemma IssuedAccounts(c: Setup, y: System, t: Turn)
    requires Accounts(c, y) && NoUserData(t.out)
    ensures Accounts(c, Issued(y, t))
  {
    if t.out != [] {
      IssueAccounts(y.recA, t.out[0], []);
      assert y.recA.taken + [] == y.recA.taken;
    }
  }

  /** The record after a tick of A that took m off the queue and wrote out. */
  lemma TickRecord(r: Record, out: seq<Frame>, m: Option<Outgoing>, taken: seq<Asdu>)
    requires FrameAccounts(r)
    requires taken == match m case Some(o) => [o.asdu] case None => []
    requires if m.Some? && m.value.asdu.Encodable? then
               && |out| == 1 && out[0].Variable? && out[0].asdu == m.value.asdu.octets && out[0].control.fcv
             else NoUserData(out)
    ensures FrameAccounts(if out == [] then r.(taken := r.taken + taken) else Issue(r.(taken := r.taken + taken), out[0]))
  {
    assert r.taken + [] == r.taken;
    if m.Some? && m.value.asdu.Encodable? {
      IssueAccounts(r, out[0], taken);
    } else {
      var r1 := r.(taken := r.taken + taken);
      if m.Some? { DropAccounts(r, m.value.asdu); }
      if out != [] {
        assert r1.taken + [] == r1.taken;
        IssueAccounts(r1, out[0], []);
      }
    }
  }

  lemma TakenIsFound(c: Setup, y: System)
    requires Shape(c, y)
    ensures TakenFor(y.queue, y.p.stations, c.addr)
            == match Scan(y.queue, y.p.stations).0 case Some(o) => [o.asdu] case None => []
  {
    ScanFindsEligible(y.queue, y.p.stations);
  }

  lemma TickAAccounts(c: Setup, y: System)
    requires c.Valid() && Shape(c, y) && Accounts(c, y)
    ensures Accounts(c, TickedA(c, y))
  {
    if y.p.lastSent.None? {
      var y', t, m := TickedA(c, y), Tick(c.primary, y.p, y.queue), Scan(y.queue, y.p.stations).0;
      var taken := TakenFor(y.queue, y.p.stations, c.addr);
      TickSends(c.primary, y.p, y.queue);
      TakenIsFound(c, y);
      TickRecord(y.recA, t.out, m, taken);
      ScanTakesFirst(y.queue, y.p.stations, c.addr);
      TickedRecord(c, y);
      TickedQueue(c, y, y', taken);
    }
  }

  lemma TickedQueue(c: Setup, y: System, y': System, taken: seq<Asdu>)
    requires Accounts(c, y) && FrameAccounts(y'.recA) && y'.recB == y.recB && y'.b == y.b
    requires y'.recA.queued == y.recA.queued && y'.recA.taken == y.recA.taken + taken
    requires Waiting(y.queue, c.addr) == taken + Waiting(y'.queue, c.addr)
    ensures Accounts(c, y')
  {
  }

  lemma TickedRecord(c: Setup, y: System)
    requires WellFormed(y.p) && y.p.lastSent.None?
    ensures var y', t := TickedA(c, y), Tick(c.primary, y.p, y.queue);
      var r := y.recA.(taken := y.recA.taken + TakenFor(y.queue, y.p.stations, c.addr));
      && y'.queue == t.queue && y'.recB == y.recB && y'.b == y.b
      && y'.recA == if t.out == [] then r else Issue(r, t.out[0])
  {
  }

  lemma FrameAtBAccounts(c: Setup, y: System, f: Frame)
    requires c.Valid() && Shape(c, y) && ShapeA(c, y) && ShapeB(c, y) && Accounts(c, y) && y.fromA == Down(f)
    ensures Accounts(c, FrameAtB(c, y, f))
  {
    var o := SS.HandleFrame(c.secondary, y.s, y.b, f);
    BServes(c, y, f);
    ActedAccounts(y.recA, IsNew(y.s, f), f, o.out, o.asdu);
  }

  lemma BServes(c: Setup, y: System, f: Frame)
    requires c.Valid() && Shape(c, y) && PrimaryFrame(f, c.addr)
    ensures var o := SS.HandleFrame(c.secondary, y.s, y.b, f);
      && o.asdu == (if IsNew(y.s, f) && o.out != [] then FrameData(f) else None)
      && o.b.primQueue == y.b.primQueue
  {
    assert SS.HandleFrame(c.secondary, y.s, y.b, f) == SS.OnPrimary(c.secondary, y.s, y.b, f);
  }

  lemma FrameAtAAccounts(c: Setup, y: System, f: Frame)
    requires c.Valid() && Shape(c, y) && ShapeA(c, y) && ShapeB(c, y) && Accounts(c, y) && y.fromB == Down(f)
    ensures Accounts(c, FrameAtA(c, y, f))
  {
    var r := HandleFrame(c.primary, y.p, f);
    ActedAccounts(y.recB, IsNewAtA(y.p, f), f, r.out, Delivered(f, r));
  }

  lemma TickBAccounts(c: Setup, y: System, initDue: bool)
    requires c.Valid() && Shape(c, y) && Accounts(c, y) && y.s.primOut.None?
    ensures Accounts(c, TickedB(c, y, initDue))
  {
    assert y.recB.taken + [] == y.recB.taken;
    if y.s.primActive && y.b.primQueue != [] {
      var m := y.b.primQueue[0];
      assert y.b.primQueue == [m] + y.b.primQueue[1..];
      if m.Encodable? {
        SentByB(c, y, initDue);
      } else {
        DropAccounts(y.recB, m);
      }
    } else if !y.s.primActive && initDue {
      IssueAccounts(y.recB, SS.PrimTick(c.secondary, y.s, y.b, false, initDue).out[0], []);
    }
  }

  lemma SentByB(c: Setup, y: System, initDue: bool)
    requires c.Valid() && Shape(c, y) && Accounts(c, y) && y.s.primOut.None? && y.s.primActive
    requires y.b.primQueue != [] && y.b.primQueue[0].Encodable?
    ensures Accounts(c, TickedB(c, y, initDue))
  {
    var m, t := y.b.primQueue[0], SS.PrimTick(c.secondary, y.s, y.b, false, initDue);
    assert y.b.primQueue == [m] + y.b.primQueue[1..];
    assert t.b.primQueue == y.b.primQueue[1..] && |t.out| == 1 && FrameData(t.out[0]) == Some(m.octets);
    IssueAccounts(y.recB, t.out[0], [m]);
  }

  lemma ResponseAtAAccounts(c: Setup, y: System, f: Frame)
    requires Accounts(c, y)
    ensures Accounts(c, ResponseAtA(c, y, f))
  {
  }

  lemma ResponseAtBAccounts(c: Setup, y: System, f: Frame)
    requires Accounts(c, y) && (f.SingleCharAck? || !f.control.prm)
    ensures Accounts(c, ResponseAtB(c, y, f))
  {
    ResponseAtBRecord(c, y, f);
  }

  lemma ResponseAtBRecord(c: Setup, y: System, f: Frame)
    requires f.SingleCharAck? || !f.control.prm
    ensures var y', r' := ResponseAtB(c, y, f), ResponseAtB(c, y, f).recB;
      && y'.recA == y.recA && y'.queue == y.queue && y'.b == y.b
      && r' == y.recB.(answered := r'.answered, abandoned := r'.abandoned)
  {
    assert SS.HandleFrame(c.secondary, y.s, y.b, f).b == y.b;
  }

  lemma ArrivalAccounts(c: Setup, y: System, d: Direction)
    requires c.Valid() && Shape(c, y) && ShapeA(c, y) && ShapeB(c, y) && Accounts(c, y)
    ensures Accounts(c, Step(c, y, Arrives(d)))
  {
    match d
    case FromA =>
      if y.fromA.Down? { FrameAtBAccounts(c, y, y.fromA.frame); }
      else if y.fromA.Up? { ResponseAtAAccounts(c, y, y.fromA.frame); }
    case FromB =>
      if y.fromB.Down? { FrameAtAAccounts(c, y, y.fromB.frame); }
      else if y.fromB.Up? { ResponseAtBAccounts(c, y, y.fromB.frame); }
  }

  lemma OverdueAAccounts(c: Setup, y: System)
    requires Accounts(c, y)
    ensures Accounts(c, OverdueA(c, y))
  {
  }

  lemma OverdueBAccounts(c: Setup, y: System)
    requires Accounts(c, y)
    ensures Accounts(c, OverdueB(c, y))
  {
    OverdueBRecord(c, y);
  }

  lemma OverdueBRecord(c: Setup, y: System)
    ensures var y', r' := OverdueB(c, y), OverdueB(c, y).recB;
      && y'.recA == y.recA && y'.queue == y.queue && y'.b == y.b
      && r' == y.recB.(abandoned := r'.abandoned)
  {
    if y.s.primOut.Some? {
      assert SS.PrimTick(c.secondary, y.s, y.b, true, false).b == y.b;
    }
  }

  lemma OverdueAccounts(c: Setup, y: System, d: Direction)
    requires WellFormed(y.p) && Accounts(c, y)
    ensures Accounts(c, Step(c, y, Overdue(d)))
  {
    if d.FromA? { OverdueAAccounts(c, y); } else { OverdueBAccounts(c, y); }
  }

  lemma OfferAccounts(c: Setup, y: System, m: SS.Message)
    requires c.Valid() && Accounts(c, y)
    ensures Accounts(c, Offered(c, y, m))
  {
  }

  lemma TurnAccounts(c: Setup, y: System, e: Event)
    requires c.Valid() && Shape(c, y) && ShapeA(c, y) && ShapeB(c, y) && Accounts(c, y) && (e.IdleFires? || e.Manual?)
    ensures Accounts(c, Step(c, y, e))
  {
    if e.IdleFires? {
      IssuedAccounts(c, y, OnT3(c.primary, y.p));
    } else {
      IssuedAccounts(c, y, LinkRequest(c.primary, y.p, e.fun, c.primary.defaultAddr));
    }
  }

  lemma EnqueueAccounts(c: Setup, y: System, asdu: Asdu)
    requires WellFormed(y.p) && Accounts(c, y)
    ensures Accounts(c, Step(c, y, Enqueue(asdu)))
  {
    WaitingAppend(y.queue, Outgoing(asdu, c.addr), c.addr);
  }

  lemma LostAccounts(c: Setup, y: System, d: Direction)
    requires WellFormed(y.p) && Accounts(c, y)
    ensures Accounts(c, Step(c, y, Lost(d)))
  {
  }

  lemma StepAccounts(c: Setup, y: System, e: Event)
    requires c.Valid() && Shape(c, y) && ShapeA(c, y) && ShapeB(c, y) && Accounts(c, y)
    ensures Accounts(c, Step(c, y, e))
  {
    match e
    case Enqueue(asdu) => EnqueueAccounts(c, y, asdu);
    case Offer(m) => OfferAccounts(c, y, m);
    case TickA => TickAAccounts(c, y);
    case IdleFires => TurnAccounts(c, y, e);
    case Manual(fun) => TurnAccounts(c, y, e);
    case TickB(initDue) => if y.s.primOut.None? { TickBAccounts(c, y, initDue); }
    case Overdue(d) => OverdueAccounts(c, y, d);
    case Lost(d) => LostAccounts(c, y, d);
    case Arrives(d) => ArrivalAccounts(c, y, d);
  }

  // ---- whole runs ----

  ghost function RunFrom(c: Setup, y: System, es: seq<Event>): (r: System)
    requires c.Valid() && Invariant(c, y)
    ensures Invariant(c, r)
    decreases |es|
  {
    if es == [] then y
    else
      StepKeeps(c, y, es[0]);
      RunFrom(c, Step(c, y, es[0]), es[1..])
  }

  ghost function Run(c: Setup, es: seq<Event>): (r: System)
    requires c.Valid()
    ensures Invariant(c, r)
  {
    StartInvariant(c);
    RunFrom(c, Start(c), es)
  }

  lemma {:induction false} RunAccounts(c: Setup, y: System, es: seq<Event>)
    requires c.Valid() && Invariant(c, y) && Accounts(c, y)
    ensures Accounts(c, RunFrom(c, y, es))
    decreases |es|
  {
    if es != [] {
      StepKeeps(c, y, es[0]);
      StepAccounts(c, y, es[0]);
      RunAccounts(c, Step(c, y, es[0]), es[1..]);
    }
  }

  lemma RecordDelivery(r: Record, v: FC.Link<Frame, Frame>)
    requires FrameAccounts(r) && FC.Good(v)
    requires v.sent == r.sent && v.acted == r.acted && v.answered == r.answered && v.abandoned == r.abandoned
    ensures DeliveredInOrder(r, v)
  {
    FC.Promise(v);
    FC.NothingElseMissing(v, FrameData);
    CollectFirsts(r.acted);
    CollectSame(r.answered);
    SubsequenceCollect(FC.Firsts(r.acted), r.sent, FrameData);
    SubsequenceCollect(r.answered, r.acted, SentData);
  }

  /**
   What one direction promises. The receiving application is given each message at most once and in
   queue order. The messages the sender saw confirmed are a subsequence of those handled. The account
   is exact: every message taken is confirmed, or its own transaction was abandoned, or it is the
   one under way. The log says of every counted frame whether it was acted on, with what answer, that
   each confirmed one was, and that the frame under way, if acted on, was answered with what the
   receiver would repeat.
   */
  ghost predicate DeliveredInOrder(r: Record, v: FC.Link<Frame, Frame>) {
    && Subsequence(r.handled, Collect(r.taken, AsduData))
    && Subsequence(Collect(r.answered, SentData), r.handled)
    && |Collect(r.taken, AsduData)|
       == |Collect(r.answered, SentData)| + |Collect(r.abandoned, FrameData)| + FC.UnderWay(v, FrameData)
    && exists log :: FC.Explains(log, r.sent, r.acted, r.answered) && FC.Current(log, v)
  }

  /** After any run, what is queued is what was taken followed by what waits, and both directions deliver. */
  lemma BothDirectionsDeliver(c: Setup, es: seq<Event>)
    requires c.Valid()
    ensures var y := Run(c, es);
      && y.recA.queued == y.recA.taken + Waiting(y.queue, c.addr)
      && y.recB.queued == y.recB.taken + y.b.primQueue
      && DeliveredInOrder(y.recA, ViewA(c, y)) && DeliveredInOrder(y.recB, ViewB(c, y))
  {
    StartInvariant(c);
    RunAccounts(c, Start(c), es);
    var y := Run(c, es);
    RecordDelivery(y.recA, ViewA(c, y));
    RecordDelivery(y.recB, ViewB(c, y));
  }
}
