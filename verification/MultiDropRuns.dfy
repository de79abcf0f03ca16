/** Whole runs of an unbalanced multi-drop line, and what they promise for every station. */
module MultiDropRuns {
  import opened Octets
  import opened Ft12
  import opened Ft12Stream
  import opened PrimaryStation
  import opened Transactions
  import opened PrimaryTurns
  import opened MultiDrop
  import opened MultiDropSafety
  import FC = FrameCount
  import SS = SecondaryStation

  lemma StartShape(c: Setup)
    requires c.Valid()
    ensures Stations(c, Start(c)) && OnLine(Start(c))
  {
  }

  lemma StartGood(c: Setup, a: LinkAddr)
    requires c.Valid() && a in c.order
    ensures var y := Start(c);
      && a in y.p.stations && a in y.secs && a in y.rec && FC.Good(View(y, a))
  {
    FC.StartGood<Frame, Frame>(None);
    assert View(Start(c), a) == FC.Start(None);
  }

  lemma StartInvariant(c: Setup)
    requires c.Valid()
    ensures Invariant(c, Start(c))
  {
    StartShape(c);
    forall a | a in Start(c).secs ensures FC.Good(View(Start(c), a)) {
      StartGood(c, a);
    }
  }

  /** Only what the applications see differs. */
  predicate SameProcedure(rec: map<LinkAddr, Record>, rec': map<LinkAddr, Record>) {
    && rec'.Keys == rec.Keys
    && forall a :: a in rec ==>
         && rec'[a].sent == rec[a].sent && rec'[a].acted == rec[a].acted
         && rec'[a].answered == rec[a].answered && rec'[a].abandoned == rec[a].abandoned
  }

  lemma ApplicationKeeps(c: Setup, y: System, queue: seq<Outgoing>, bufs: map<LinkAddr, SS.Buffers>, rec: map<LinkAddr, Record>)
    requires Invariant(c, y) && bufs.Keys == y.bufs.Keys && SameProcedure(y.rec, rec)
    ensures Invariant(c, y.(queue := queue, bufs := bufs, rec := rec))
  {
    var y' := y.(queue := queue, bufs := bufs, rec := rec);
    forall a | a in y.secs ensures View(y', a) == View(y, a) { }
    NoLinkChanged(c, y, y');
  }

  lemma TickKeeps(c: Setup, y: System)
    requires c.Valid() && Invariant(c, y)
    ensures Invariant(c, Ticked(c, y))
  {
    if y.p.lastSent.None? {
      var t := Tick(c.primary, y.p, y.queue);
      var rec := map a | a in y.rec :: y.rec[a].(taken := y.rec[a].taken + TakenFor(y.queue, y.p.stations, a));
      ApplicationKeeps(c, y, t.queue, y.bufs, rec);
      var y1 := y.(queue := t.queue, bufs := y.bufs, rec := rec);
      TickIsFresh(c.primary, y.p, y.queue);
      FreshKeeps(c, y1, Turn(t.p, t.out));
      assert Ticked(c, y) == Issued(y1, Turn(t.p, t.out));
    }
  }

  lemma EnqueueKeeps(c: Setup, y: System, asdu: Asdu, a: LinkAddr)
    requires Invariant(c, y)
    ensures Invariant(c, Enqueued(y, asdu, a))
  {
    var y' := Enqueued(y, asdu, a);
    ApplicationKeeps(c, y, y'.queue, y.bufs, y'.rec);
  }

  lemma OfferShape(c: Setup, y: System, a: LinkAddr, m: SS.Message)
    ensures var y' := Offered(c, y, a, m);
      y' == y.(queue := y.queue, bufs := y'.bufs, rec := y'.rec) && y'.bufs.Keys == y.bufs.Keys && SameProcedure(y.rec, y'.rec)
  {
    var r := RecordOf(y, a);
    NotedApplication(y.rec, a, r, r.(accepted1 := r.accepted1 + [m.asdu]));
    NotedApplication(y.rec, a, r, r.(accepted2 := r.accepted2 + [m.asdu]));
  }

  lemma NotedApplication(rec: map<LinkAddr, Record>, a: LinkAddr, r: Record, r': Record)
    requires a in rec ==> rec[a] == r
    requires r'.sent == r.sent && r'.acted == r.acted && r'.answered == r.answered && r'.abandoned == r.abandoned
    ensures SameProcedure(rec, Noted(rec, a, r'))
  {
  }

  lemma OfferKeeps(c: Setup, y: System, a: LinkAddr, m: SS.Message)
    requires Invariant(c, y)
    ensures Invariant(c, Offered(c, y, a, m))
  {
    var y' := Offered(c, y, a, m);
    OfferShape(c, y, a, m);
    ApplicationKeeps(c, y, y.queue, y'.bufs, y'.rec);
  }

  lemma IdleKeeps(c: Setup, y: System)
    requires c.Valid() && Invariant(c, y)
    ensures Invariant(c, Issued(y, OnT3(c.primary, y.p)))
  {
    KeepAliveIsFresh(c.primary, y.p);
    FreshKeeps(c, y, OnT3(c.primary, y.p));
  }

  lemma ManualKeeps(c: Setup, y: System, fun: Nibble, a: LinkAddr)
    requires c.Valid() && Invariant(c, y)
    ensures Invariant(c, Issued(y, LinkRequest(c.primary, y.p, fun, a)))
  {
    ManualIsFresh(c.primary, y.p, fun, a);
    FreshKeeps(c, y, LinkRequest(c.primary, y.p, fun, a));
  }

  lemma ArrivalKeeps(c: Setup, y: System)
    requires c.Valid() && Invariant(c, y)
    ensures Sound(y) && Invariant(c, Arrived(c, y))
  {
    if y.line.Down? {
      FrameKeeps(c, y);
      assert Arrived(c, y) == FrameArrives(c, y, y.line.frame);
    } else if y.line.Up? && !y.ended {
      ResponseKeeps(c, y, y.line.frame);
      assert Arrived(c, y) == ResponseArrives(c, y, y.line.frame);
    } else {
      LostKeeps(c, y);
    }
  }

  /** Every event leaves every station's link good. */
  lemma StepKeeps(c: Setup, y: System, e: Event)
    requires c.Valid() && Invariant(c, y)
    ensures Sound(y) && Invariant(c, Step(c, y, e))
  {
    match e
    case Enqueue(asdu, a) => EnqueueKeeps(c, y, asdu, a);
    case Offer(a, m) => OfferKeeps(c, y, a, m);
    case Lost => LostKeeps(c, y);
    case Arrives => ArrivalKeeps(c, y);
    case TickFires => TickKeeps(c, y);
    case IdleFires => IdleKeeps(c, y);
    case Manual(fun) => ManualKeeps(c, y, fun, c.primary.defaultAddr);
    case ResponseOverdue => if y.line.Idle? { OverdueKeeps(c, y); }
  }

  /** Where a line gets to from y. */
  ghost function RunFrom(c: Setup, y: System, es: seq<Event>): (r: System)
    requires c.Valid() && Invariant(c, y)
    ensures Invariant(c, r)
    decreases |es|
  {
    if es == [] then y
    else
      StepKeeps(c, y, es[0]);
      RunFrom(c, Step(c, y, es[0]), es[1..])
  }

  ghost function Run(c: Setup, es: seq<Event>): (r: System)
    requires c.Valid()
    ensures Invariant(c, r)
  {
    StartInvariant(c);
    RunFrom(c, Start(c), es)
  }

  lemma IssuedStations(y: System, t: Turn)
    ensures Issued(y, t).secs == y.secs
  {
  }

  lemma TickRecordSecs(c: Setup, y: System)
    requires WellFormed(y.p)
    ensures Ticked(c, y).secs == y.secs
  {
  }

  lemma OverdueStations(c: Setup, y: System)
    ensures Overdue(c, y).secs == y.secs
  {
  }

  lemma StepStations(c: Setup, y: System, e: Event)
    requires Sound(y)
    ensures Step(c, y, e).secs.Keys == y.secs.Keys
  {
    match e
    case Enqueue(_, _) =>
    case Offer(_, _) =>
    case Lost =>
    case Arrives =>
      if y.line.Up? {
        var r := HandleFrame(c.primary, y.p, y.line.frame);
        IssuedStations(y.(line := Line.Idle, rec := RecordResponse(y, y.line.frame, r)), Turn(r.p, r.out));
      }
    case TickFires => TickRecordSecs(c, y);
    case IdleFires => IssuedStations(y, OnT3(c.primary, y.p));
    case Manual(fun) => IssuedStations(y, LinkRequest(c.primary, y.p, fun, c.primary.defaultAddr));
    case ResponseOverdue => OverdueStations(c, y);
  }

  lemma {:induction false} RunStations(c: Setup, y: System, es: seq<Event>)
    requires c.Valid() && Invariant(c, y)
    ensures RunFrom(c, y, es).secs.Keys == y.secs.Keys
    decreases |es|
  {
    if es != [] {
      StepKeeps(c, y, es[0]);
      StepStations(c, y, es[0]);
      RunStations(c, Step(c, y, es[0]), es[1..]);
    }
  }

  /** What is on the line, if anything. */
  function OnTheLine(y: System): Option<Frame> {
    match y.line case Idle => None case Down(f) => Some(f) case Up(f) => Some(f)
  }

  lemma OnLineMarshallable(c: Setup, y: System)
    requires c.Valid() && Stations(c, y) && OnLine(y) && OnTheLine(y).Some?
    requires forall a :: a in y.secs ==> AddrFits(a, c.primary.addrSize)
    ensures Marshallable(OnTheLine(y).value, c.primary.addrSize)
  {
  }

  /**
   The octets of whatever is on the line after any run read back as that frame and nothing else, so
   that the runs are runs over octets too. Link addresses must fit their width.
   */
  lemma LineCarriesFrames(c: Setup, es: seq<Event>, tail: seq<byte>)
    requires c.Valid() && forall a :: a in c.order ==> AddrFits(a, c.primary.addrSize)
    requires OnTheLine(Run(c, es)).Some?
    ensures var f := OnTheLine(Run(c, es)).value;
      Marshal(f, c.primary.addrSize).Ok?
      && Read(Raw(f, c.primary.addrSize) + tail, c.primary.addrSize) == (Got(f), tail)
  {
    var y := Run(c, es);
    StartInvariant(c);
    RunStations(c, Start(c), es);
    OnLineMarshallable(c, y);
    ReadMarshalled(OnTheLine(y).value, c.primary.addrSize, tail);
  }
}
