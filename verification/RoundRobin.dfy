/**
 Fair polling: on an unbalanced line, whatever is received, queued, requested or timed out in
 between, any n consecutive polling steps go to the n stations in turn, one frame to each.
 */
module RoundRobin {
  import opened Octets
  import opened Ft12
  import opened PrimaryStation
  import opened PrimaryTurns
  import opened PrimaryTrace

  /** The station a step polls: a free link, and no queued message to send instead. */
  function Polled(c: Settings, p: Primary, e: Event): Option<LinkAddr>
    requires WellFormed(p)
  {
    if e.TickFires? && p.lastSent.None? && !TrySendQueued(c, p, e.queue).sent then
      var out := Tick(c, p, e.queue).out;
      if out == [] || out[0].SingleCharAck? then None else Some(out[0].linkAddr)
    else None
  }

  function Next(i: nat, n: nat): nat { if i + 1 == n then 0 else i + 1 }

  /** The cursor after k polling steps. */
  function Cursor(i: nat, k: nat, n: nat): (r: nat)
    requires i < n
    ensures r < n
    decreases k
  {
    if k == 0 then i else Cursor(Next(i, n), k - 1, n)
  }

  lemma {:induction false} CursorAdd(i: nat, j: nat, k: nat, n: nat)
    requires i < n
    ensures Cursor(i, j + k, n) == Cursor(Cursor(i, j, n), k, n)
    decreases j
  {
    if j > 0 { CursorAdd(Next(i, n), j - 1, k, n); }
  }

  lemma {:induction false} CursorWithin(i: nat, k: nat, n: nat)
    requires i < n && k <= n
    ensures Cursor(i, k, n) == if i + k < n then i + k else if i + k < 2 * n then i + k - n else i
    decreases k
  {
    if k > 0 { CursorWithin(Next(i, n), k - 1, n); }
  }

  lemma ModIsNext(i: nat, n: nat)
    requires i < n
    ensures (i + 1) % n == Next(i, n)
  {
  }

  /** A polling step sends one frame to the station at the cursor and moves on; nothing else moves it. */
  lemma CursorMoves(c: Settings, p: Primary, e: Event)
    requires WellFormed(p) && !c.balanced
    ensures var p' := Step(c, p, e).0;
      && p'.order == p.order
      && match Polled(c, p, e)
         case Some(a) => a == p.order[p.pollIdx] && p'.pollIdx == Next(p.pollIdx, |p.order|)
         case None => p'.pollIdx == p.pollIdx
  {
    match e
    case TickFires(q) => TickCursor(c, p, q);
    case Receive(f) => ReceptionCursor(c, p, f);
    case _ =>
  }

  lemma TickCursor(c: Settings, p: Primary, q: seq<Outgoing>)
    requires WellFormed(p) && !c.balanced
    ensures var p' := Tick(c, p, q).p;
      && p'.order == p.order
      && match Polled(c, p, TickFires(q))
         case Some(a) => a == p.order[p.pollIdx] && p'.pollIdx == Next(p.pollIdx, |p.order|)
         case None => p'.pollIdx == p.pollIdx
  {
    ModIsNext(p.pollIdx, |p.order|);
  }

  lemma SettledCursor(c: Settings, p: Primary, f: Frame)
    ensures Settled(c, p, f).pollIdx == p.pollIdx && Settled(c, p, f).order == p.order
  {
  }

  lemma ReceptionCursor(c: Settings, p: Primary, f: Frame)
    requires !c.balanced
    ensures HandleFrame(c, p, f).p.pollIdx == p.pollIdx && HandleFrame(c, p, f).p.order == p.order
  {
    var p1 := Settled(c, p, f);
    SettledCursor(c, p, f);
    ResponseIsSettledThenDemand(c, p, f);
    assert Demand(c, p1, f).p.pollIdx == p1.pollIdx && Demand(c, p1, f).p.order == p1.order;
  }

  /** The stations polled over a run, in order. */
  ghost function Polls(c: Settings, l: Ledger, p: Primary, es: seq<Event>): seq<LinkAddr>
    requires Agrees(c, l, p)
    decreases |es|
  {
    if es == [] then []
    else
      var next := After(c, l, p, es[0]);
      (match Polled(c, p, es[0]) case Some(a) => [a] case None => []) + Polls(c, next.0, next.1, es[1..])
  }

  /** The k-th poll goes to the station k places after the cursor. */
  ghost predicate FollowsCursor(order: seq<LinkAddr>, polls: seq<LinkAddr>, i: nat)
    requires i < |order|
  {
    forall k :: 0 <= k < |polls| ==> polls[k] == order[Cursor(i, k, |order|)]
  }

  lemma FollowsStep(order: seq<LinkAddr>, polls: seq<LinkAddr>, i: nat)
    requires i < |order| && FollowsCursor(order, polls, Next(i, |order|))
    ensures FollowsCursor(order, [order[i]] + polls, i)
  {
  }

  lemma {:induction false} PollsFollowCursor(c: Settings, l: Ledger, p: Primary, es: seq<Event>)
    requires Agrees(c, l, p) && !c.balanced
    ensures FollowsCursor(p.order, Polls(c, l, p, es), p.pollIdx)
    decreases |es|
  {
    if es != [] {
      CursorMoves(c, p, es[0]);
      var next := After(c, l, p, es[0]);
      var rest := Polls(c, next.0, next.1, es[1..]);
      PollsFollowCursor(c, next.0, next.1, es[1..]);
      if Polled(c, p, es[0]).Some? {
        FollowsStep(p.order, rest, p.pollIdx);
      } else {
        assert [] + rest == rest;
      }
    }
  }

  /** A window of n cursor positions is a rotation of the order. */
  lemma WindowIsRotation(order: seq<LinkAddr>, window: seq<LinkAddr>, s: nat)
    requires s < |order| == |window|
    requires forall k :: 0 <= k < |window| ==> window[k] == order[Cursor(s, k, |order|)]
    ensures multiset(window) == multiset(order)
  {
    var n := |order|;
    forall k | 0 <= k < n ensures window[k] == (order[s..] + order[..s])[k] {
      CursorWithin(s, k, n);
    }
    assert window == order[s..] + order[..s];
    assert order == order[..s] + order[s..];
  }

  function Window(polls: seq<LinkAddr>, from: nat, n: nat): seq<LinkAddr>
    requires from + n <= |polls|
  {
    polls[from..from + n]
  }

  /** Any n consecutive polls go to the n configured stations, each as often as it is listed. */
  ghost predicate FairWindows(order: seq<LinkAddr>, polls: seq<LinkAddr>) {
    forall from: nat :: from + |order| <= |polls| ==> multiset(Window(polls, from, |order|)) == multiset(order)
  }

  lemma CursorIsFair(order: seq<LinkAddr>, polls: seq<LinkAddr>, i: nat)
    requires i < |order| && FollowsCursor(order, polls, i)
    ensures FairWindows(order, polls)
  {
    var n := |order|;
    forall from: nat | from + n <= |polls| ensures multiset(Window(polls, from, n)) == multiset(order) {
      var window, s := Window(polls, from, n), Cursor(i, from, n);
      forall k | 0 <= k < n ensures window[k] == order[Cursor(s, k, n)] {
        CursorAdd(i, from, k, n);
        assert window[k] == polls[from + k];
      }
      WindowIsRotation(order, window, s);
    }
  }

  /**
   Fairness. In any run, from any state a run can reach, any n consecutive polls serve the n
   configured stations: one frame to each when they are distinct.
   */
  lemma Fair(c: Settings, l: Ledger, p: Primary, es: seq<Event>)
    requires Agrees(c, l, p) && !c.balanced
    ensures FairWindows(p.order, Polls(c, l, p, es))
  {
    PollsFollowCursor(c, l, p, es);
    CursorIsFair(p.order, Polls(c, l, p, es), p.pollIdx);
  }

  /** A tick that finds the link free and nothing to send does poll, one frame to one station. */
  lemma TickPolls(c: Settings, p: Primary, q: seq<Outgoing>)
    requires WellFormed(p) && !c.balanced && p.lastSent.None? && !TrySendQueued(c, p, q).sent
    ensures Polled(c, p, TickFires(q)).Some? && |Tick(c, p, q).out| == 1
  {
  }
}
