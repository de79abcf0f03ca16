/**
 The frame count bit procedure of IEC 60870-5-2, subclause 5.1.2, between one sender and one
 receiver on a lossy line: the core that unbalanced multi-drop lines and both directions of a
 balanced line share.

 At most one frame is outstanding. It, or its response, may be lost, but nothing arrives after the
 timer of its own attempt has fired. F is what a frame carries, R what a response carries. The
 histories record what an observer of each end sees.
 */
module FrameCount {
  import opened Collecting
  import opened Octets

  /** How a frame treats the frame count bit. */
  datatype Kind = Reset | Plain | Counted(fcb: bool)

  datatype Outstanding<+F> = Outstanding(kind: Kind, frame: F)

  /** The current attempt: nothing on the line, the frame on its way, or the response on its way. */
  datatype Attempt<+R> = Idle | Down | Up(resp: R)

  datatype Link<F, R> = Link(
    // the sender
    active: bool,                      // the link has been reset and may carry counted frames
    fcb: bool,                         // bit of the next counted frame
    out: Option<Outstanding<F>>,       // the frame awaiting its response
    // the receiver
    expected: bool,                    // bit expected on the next counted frame
    replay: Option<R>,                 // what a repeated frame is answered with
    // the line
    attempt: Attempt<R>,
    // histories
    sent: seq<F>,                      // counted frames the sender issued, repeats excluded
    acted: seq<(F, R)>,                // counted frames the receiver acted on, and how it answered
    answered: seq<(F, R)>,             // counted frames the sender saw confirmed, and by what
    abandoned: seq<F>                  // counted frames the sender gave up on
  )

  // ---- steps ----

  function Issue<F, R>(v: Link<F, R>, o: Outstanding<F>): Link<F, R> {
    v.(out := Some(o), attempt := Down,
       active := v.active && !o.kind.Reset?,
       sent := if o.kind.Counted? then v.sent + [o.frame] else v.sent)
  }

  predicate MayIssue<F, R>(v: Link<F, R>, o: Outstanding<F>) {
    v.out.None? && (o.kind.Counted? ==> v.active && o.kind.fcb == v.fcb)
  }

  function Lose<F, R>(v: Link<F, R>): Link<F, R> { v.(attempt := Idle) }

  predicate Repeats<F, R>(v: Link<F, R>)
    requires v.out.Some?
  {
    v.out.value.kind.Counted? && v.out.value.kind.fcb != v.expected
  }

  /** The frame arrives for the first time: the receiver acts on it and answers r. */
  function Act<F, R>(v: Link<F, R>, r: R): Link<F, R>
    requires v.out.Some?
  {
    match v.out.value.kind
    case Reset => v.(expected := true, replay := Some(r), attempt := Up(r))
    case Plain => v.(replay := Some(r), attempt := Up(r))
    case Counted(_) =>
      v.(expected := !v.expected, replay := Some(r), attempt := Up(r), acted := v.acted + [(v.out.value.frame, r)])
  }

  /** The frame arrives again: the receiver answers as before. */
  function Replay<F, R>(v: Link<F, R>): Link<F, R>
    requires v.replay.Some?
  {
    v.(attempt := Up(v.replay.value))
  }

  function Confirm<F, R>(v: Link<F, R>): Link<F, R>
    requires v.out.Some? && v.attempt.Up?
  {
    var o := v.out.value;
    var v' := v.(out := None, attempt := Idle);
    match o.kind
    case Reset => v'.(active := true, fcb := true)
    case Plain => v'
    case Counted(fcb) => v'.(fcb := !fcb, answered := v.answered + [(o.frame, v.attempt.resp)])
  }

  function Retry<F, R>(v: Link<F, R>): Link<F, R> { v.(attempt := Down) }

  function GiveUp<F, R>(v: Link<F, R>): Link<F, R> {
    v.(out := None, attempt := Idle, active := false,
       abandoned := if CountedOut(v) then v.abandoned + [v.out.value.frame] else v.abandoned)
  }

  // ---- the explanation of the histories ----

  /** What became of one counted frame. */
  datatype Entry<F, R> = Entry(frame: F, acted: Option<R>, confirmed: bool)

  function Frames<F, R>(log: seq<Entry<F, R>>): seq<F> {
    if log == [] then [] else [log[0].frame] + Frames(log[1..])
  }

  function ActedOn<F, R>(e: Entry<F, R>): seq<(F, R)> {
    match e.acted case Some(r) => [(e.frame, r)] case None => []
  }

  function Acted<F, R>(log: seq<Entry<F, R>>): seq<(F, R)> {
    if log == [] then [] else ActedOn(log[0]) + Acted(log[1..])
  }

  function AnsweredOn<F, R>(e: Entry<F, R>): seq<(F, R)> { if e.confirmed then ActedOn(e) else [] }

  function Answered<F, R>(log: seq<Entry<F, R>>): seq<(F, R)> {
    if log == [] then [] else AnsweredOn(log[0]) + Answered(log[1..])
  }

  function LeftOpen<F, R>(e: Entry<F, R>): seq<F> { if e.confirmed then [] else [e.frame] }

  /** The frames never confirmed. */
  function Unconfirmed<F, R>(log: seq<Entry<F, R>>): seq<F> {
    if log == [] then [] else LeftOpen(log[0]) + Unconfirmed(log[1..])
  }

  ghost predicate ConfirmedActed<F, R>(log: seq<Entry<F, R>>) {
    forall i :: 0 <= i < |log| && log[i].confirmed ==> log[i].acted.Some?
  }

  /**
   The log lists the counted frames in the order they were issued. Each was acted on once or not at
   all, each confirmed one was acted on, and was confirmed with the answer the receiver gave then.
   */
  ghost predicate Explains<F, R>(log: seq<Entry<F, R>>, sent: seq<F>, acted: seq<(F, R)>, answered: seq<(F, R)>) {
    && Frames(log) == sent && Acted(log) == acted && Answered(log) == answered
    && ConfirmedActed(log)
  }

  predicate CountedOut<F, R>(v: Link<F, R>) { v.out.Some? && v.out.value.kind.Counted? }

  /** The last entry is the frame outstanding, if it counts; the unconfirmed ones before it are exactly those abandoned. */
  ghost predicate Current<F, R>(log: seq<Entry<F, R>>, v: Link<F, R>) {
    if CountedOut(v) then
      && |log| > 0
      && log[|log| - 1] == Entry(v.out.value.frame, if Repeats(v) then v.replay else None, false)
      && Unconfirmed(log[..|log| - 1]) == v.abandoned
    else Unconfirmed(log) == v.abandoned
  }

  ghost predicate Synchronized<F, R>(v: Link<F, R>) {
    && (v.attempt.Idle? || v.out.Some?)
    && (v.active && !CountedOut(v) ==> v.expected == v.fcb)
    && (v.out.Some? ==>
        match v.out.value.kind
        case Reset => !v.active && (v.attempt.Up? ==> v.expected)
        case Plain => true
        case Counted(fcb) =>
          && v.active && fcb == v.fcb
          && (Repeats(v) ==> v.replay.Some?)
          && (v.attempt.Up? ==> Repeats(v) && v.replay == Some(v.attempt.resp)))
  }

  ghost predicate Good<F(!new), R(!new)>(v: Link<F, R>) {
    && Synchronized(v)
    && exists log :: Explains(log, v.sent, v.acted, v.answered) && Current(log, v)
  }

  /** Nothing has happened. A receiver that always answers alike has its answer from the start. */
  function Start<F, R>(replay: Option<R>): Link<F, R> {
    Link(false, false, None, true, replay, Idle, [], [], [], [])
  }

  lemma StartGood<F(!new), R(!new)>(replay: Option<R>)
    ensures Good(Start<F, R>(replay))
  {
    var log: seq<Entry<F, R>> := [];
    assert Explains(log, Start<F, R>(replay).sent, Start<F, R>(replay).acted, Start<F, R>(replay).answered);
    assert Current(log, Start<F, R>(replay));
  }

  // ---- lists ----

  lemma {:induction false} FramesAppend<F, R>(log: seq<Entry<F, R>>, e: Entry<F, R>)
    ensures Frames(log + [e]) == Frames(log) + [e.frame]
  {
    if log == [] {
      assert log + [e] == [e];
    } else {
      assert (log + [e])[1..] == log[1..] + [e];
      FramesAppend(log[1..], e);
    }
  }

  lemma {:induction false} UnconfirmedAppend<F, R>(log: seq<Entry<F, R>>, e: Entry<F, R>)
    ensures Unconfirmed(log + [e]) == Unconfirmed(log) + LeftOpen(e)
  {
    if log == [] {
      assert log + [e] == [e];
    } else {
      assert (log + [e])[1..] == log[1..] + [e];
      UnconfirmedAppend(log[1..], e);
    }
  }

  lemma {:induction false} ActedAppend<F, R>(log: seq<Entry<F, R>>, e: Entry<F, R>)
    ensures Acted(log + [e]) == Acted(log) + ActedOn(e)
  {
    if log == [] {
      assert log + [e] == [e];
    } else {
      assert (log + [e])[1..] == log[1..] + [e];
      ActedAppend(log[1..], e);
    }
  }

  lemma {:induction false} AnsweredAppend<F, R>(log: seq<Entry<F, R>>, e: Entry<F, R>)
    ensures Answered(log + [e]) == Answered(log) + AnsweredOn(e)
  {
    if log == [] {
      assert log + [e] == [e];
    } else {
      assert (log + [e])[1..] == log[1..] + [e];
      AnsweredAppend(log[1..], e);
    }
  }

  lemma {:induction false} LogAppend<F, R>(log: seq<Entry<F, R>>, e: Entry<F, R>)
    ensures Frames(log + [e]) == Frames(log) + [e.frame]
    ensures Acted(log + [e]) == Acted(log) + ActedOn(e)
    ensures Answered(log + [e]) == Answered(log) + AnsweredOn(e)
    ensures Unconfirmed(log + [e]) == Unconfirmed(log) + LeftOpen(e)
  {
    FramesAppend(log, e);
    UnconfirmedAppend(log, e);
    ActedAppend(log, e);
    AnsweredAppend(log, e);
  }

  lemma Last<F, R>(log: seq<Entry<F, R>>)
    requires log != []
    ensures log == log[..|log| - 1] + [log[|log| - 1]]
  {
  }

  /** The log with what became of its last frame brought up to date. */
  function Revised<F, R>(log: seq<Entry<F, R>>, acted: Option<R>, confirmed: bool): seq<Entry<F, R>>
    requires log != []
  {
    log[..|log| - 1] + [Entry(log[|log| - 1].frame, acted, confirmed)]
  }

  lemma {:induction false} RevisedLog<F, R>(log: seq<Entry<F, R>>, acted: Option<R>, confirmed: bool)
    requires log != [] && !log[|log| - 1].confirmed
    ensures Frames(Revised(log, acted, confirmed)) == Frames(log)
    ensures log[|log| - 1].acted.None? && acted.Some? ==>
              Acted(Revised(log, acted, confirmed)) == Acted(log) + [(log[|log| - 1].frame, acted.value)]
    ensures log[|log| - 1].acted == acted ==> Acted(Revised(log, acted, confirmed)) == Acted(log)
    ensures Answered(Revised(log, acted, confirmed))
            == Answered(log) + (if confirmed && acted.Some? then [(log[|log| - 1].frame, acted.value)] else [])
    ensures Unconfirmed(Revised(log, acted, confirmed)) 
            == Unconfirmed(log[..|log| - 1]) + (if confirmed then [] else [log[|log| - 1].frame])
    ensures Revised(log, acted, confirmed)[..|log| - 1] == log[..|log| - 1]
  {
    var n := |log| - 1;
    Last(log);
    LogAppend(log[..n], log[n]);
    LogAppend(log[..n], Entry(log[n].frame, acted, confirmed));
  }

  // ---- every step keeps the links good ----

  lemma IssueLogged<F(!new), R(!new)>(log: seq<Entry<F, R>>, v: Link<F, R>, o: Outstanding<F>)
    requires Explains(log, v.sent, v.acted, v.answered) && Current(log, v) && Synchronized(v)
    requires MayIssue(v, o) && o.kind.Counted?
    ensures var log', v' := log + [Entry(o.frame, None, false)], Issue(v, o);
      Explains(log', v'.sent, v'.acted, v'.answered) && Current(log', v')
  {
    var e: Entry<F, R> := Entry(o.frame, None, false);
    LogAppend(log, e);
    assert (log + [e])[..|log|] == log && !Repeats(Issue(v, o));
  }

  lemma IssueKeeps<F(!new), R(!new)>(v: Link<F, R>, o: Outstanding<F>)
    requires Good(v) && MayIssue(v, o)
    ensures Good(Issue(v, o))
  {
    var log: seq<Entry<F, R>> :| Explains(log, v.sent, v.acted, v.answered) && Current(log, v);
    if o.kind.Counted? {
      IssueLogged(log, v, o);
    } else {
      var v' := Issue(v, o);
      assert Explains(log, v'.sent, v'.acted, v'.answered) && Current(log, v');
    }
  }

  lemma LoseKeeps<F(!new), R(!new)>(v: Link<F, R>)
    requires Good(v)
    ensures Good(Lose(v))
  {
    var log: seq<Entry<F, R>> :| Explains(log, v.sent, v.acted, v.answered) && Current(log, v);
    assert Current(log, Lose(v));
  }

  lemma RetryKeeps<F(!new), R(!new)>(v: Link<F, R>)
    requires Good(v) && v.out.Some? && v.attempt.Idle?
    ensures Good(Retry(v))
  {
    var log: seq<Entry<F, R>> :| Explains(log, v.sent, v.acted, v.answered) && Current(log, v);
    assert Current(log, Retry(v));
  }

  lemma ReplayKeeps<F(!new), R(!new)>(v: Link<F, R>)
    requires Good(v) && v.out.Some? && v.attempt.Down? && Repeats(v)
    ensures v.replay.Some? && Good(Replay(v))
  {
    var log: seq<Entry<F, R>> :| Explains(log, v.sent, v.acted, v.answered) && Current(log, v);
    assert Current(log, Replay(v));
  }

  lemma ActLogged<F(!new), R(!new)>(log: seq<Entry<F, R>>, v: Link<F, R>, r: R)
    requires Explains(log, v.sent, v.acted, v.answered) && Current(log, v) && CountedOut(v) && !Repeats(v)
    ensures var log', v' := Revised(log, Some(r), false), Act(v, r);
      Explains(log', v'.sent, v'.acted, v'.answered) && Current(log', v')
  {
    var log', v' := Revised(log, Some(r), false), Act(v, r);
    RevisedLog(log, Some(r), false);
    assert log'[|log'| - 1] == Entry(v.out.value.frame, Some(r), false) && Repeats(v');
  }

  lemma ActKeeps<F(!new), R(!new)>(v: Link<F, R>, r: R)
    requires Good(v) && v.out.Some? && v.attempt.Down? && !Repeats(v)
    ensures Good(Act(v, r))
  {
    var log: seq<Entry<F, R>> :| Explains(log, v.sent, v.acted, v.answered) && Current(log, v);
    if CountedOut(v) {
      ActLogged(log, v, r);
    } else {
      assert Current(log, Act(v, r));
    }
  }

  lemma ConfirmLogged<F(!new), R(!new)>(log: seq<Entry<F, R>>, v: Link<F, R>)
    requires Explains(log, v.sent, v.acted, v.answered) && Current(log, v) && CountedOut(v)
    requires v.attempt.Up? && Repeats(v) && v.replay == Some(v.attempt.resp)
    ensures var log', v' := Revised(log, log[|log| - 1].acted, true), Confirm(v);
      Explains(log', v'.sent, v'.acted, v'.answered) && Current(log', v')
  {
    var log', v' := Revised(log, log[|log| - 1].acted, true), Confirm(v);
    RevisedLog(log, log[|log| - 1].acted, true);
    assert Answered(log') == v'.answered && Unconfirmed(log') == v'.abandoned + [];
  }

  lemma ConfirmKeeps<F(!new), R(!new)>(v: Link<F, R>)
    requires Good(v) && v.out.Some? && v.attempt.Up?
    ensures Good(Confirm(v))
  {
    var log: seq<Entry<F, R>> :| Explains(log, v.sent, v.acted, v.answered) && Current(log, v);
    if CountedOut(v) {
      ConfirmLogged(log, v);
    } else {
      assert Current(log, Confirm(v));
    }
  }

  lemma GiveUpKeeps<F(!new), R(!new)>(v: Link<F, R>)
    requires Good(v) && v.out.Some?
    ensures Good(GiveUp(v))
  {
    var log: seq<Entry<F, R>> :| Explains(log, v.sent, v.acted, v.answered) && Current(log, v);
    var v' := GiveUp(v);
    if CountedOut(v) {
      Last(log);
      LogAppend(log[..|log| - 1], log[|log| - 1]);
    }
    assert Current(log, v');
  }

  // ---- what a good link promises ----

  function Firsts<F, R>(s: seq<(F, R)>): seq<F> {
    seq(|s|, i requires 0 <= i < |s| => s[i].0)
  }

  /** Acted frames are a subsequence of the issued ones. */
  lemma {:induction false} ActedInOrder<F, R>(log: seq<Entry<F, R>>) returns (at: seq<nat>)
    ensures Picks(at, Firsts(Acted(log)), Frames(log))
  {
    if log == [] {
      at := [];
    } else {
      var rest := ActedInOrder(log[1..]);
      PicksStep(rest, Firsts(Acted(log[1..])), Frames(log[1..]), log[0].frame);
      if log[0].acted.Some? {
        at := [0] + Raise(rest);
        assert Firsts(Acted(log)) == [log[0].frame] + Firsts(Acted(log[1..]));
      } else {
        at := Raise(rest);
        assert Acted(log) == Acted(log[1..]);
      }
    }
  }

  /** Confirmed frames, with their answers, are a subsequence of the acted ones. */
  lemma {:induction false} AnsweredInOrder<F, R>(log: seq<Entry<F, R>>) returns (at: seq<nat>)
    ensures Picks(at, Answered(log), Acted(log))
  {
    if log == [] {
      at := [];
    } else {
      var rest := AnsweredInOrder(log[1..]);
      if log[0].acted.Some? {
        PicksStep(rest, Answered(log[1..]), Acted(log[1..]), (log[0].frame, log[0].acted.value));
        if log[0].confirmed {
          at := [0] + Raise(rest);
        } else {
          at := Raise(rest);
          assert Answered(log) == Answered(log[1..]);
        }
      } else {
        at := rest;
        assert Acted(log) == Acted(log[1..]);
        assert Answered(log) == Answered(log[1..]);
      }
    }
  }

  function FirstOf<F, R, T>(f: F -> Option<T>): ((F, R)) -> Option<T> { (x: (F, R)) => f(x.0) }

  /** Of the frames of any sort, each is confirmed or not. */
  lemma {:induction false} ConfirmedOrNot<F, R, T>(log: seq<Entry<F, R>>, sort: F -> Option<T>)
    requires ConfirmedActed(log)
    ensures |Collect(Frames(log), sort)| == |Collect(Answered(log), FirstOf(sort))| + |Collect(Unconfirmed(log), sort)|
  {
    if log != [] {
      ConfirmedOrNot(log[1..], sort);
      CollectCons(log[0].frame, Frames(log[1..]), sort);
      if log[0].confirmed {
        CollectCons((log[0].frame, log[0].acted.value), Answered(log[1..]), FirstOf(sort));
        assert Unconfirmed(log) == Unconfirmed(log[1..]);
      } else {
        CollectCons(log[0].frame, Unconfirmed(log[1..]), sort);
        assert Answered(log) == Answered(log[1..]);
      }
    }
  }

  /** What an exchange brought is brought only by frames of a sort. */
  ghost predicate BroughtBy<F(!new), R(!new), T, U>(what: ((F, R)) -> Option<T>, sort: F -> Option<U>) {
    forall x: (F, R) :: what(x).Some? ==> sort(x.0).Some?
  }

  /** What the receiver answered and the sender never saw was answered to an unconfirmed frame. */
  lemma {:induction false} MissedAnswers<F(!new), R(!new), T, U>(log: seq<Entry<F, R>>, what: ((F, R)) -> Option<T>, sort: F -> Option<U>)
    requires BroughtBy(what, sort)
    ensures |Collect(Acted(log), what)| <= |Collect(Answered(log), what)| + |Collect(Unconfirmed(log), sort)|
  {
    if log != [] {
      var e := log[0];
      MissedAnswers(log[1..], what, sort);
      if e.acted.Some? { CollectCons((e.frame, e.acted.value), Acted(log[1..]), what); }
      else { assert Acted(log) == Acted(log[1..]); }
      if e.confirmed && e.acted.Some? { CollectCons((e.frame, e.acted.value), Answered(log[1..]), what); }
      else { assert Answered(log) == Answered(log[1..]); }
      if e.confirmed { assert Unconfirmed(log) == Unconfirmed(log[1..]); }
      else { CollectCons(e.frame, Unconfirmed(log[1..]), sort); }
    }
  }

  /** The counted frame outstanding, if it is of a sort. */
  function UnderWay<F, R, T>(v: Link<F, R>, sort: F -> Option<T>): nat {
    if CountedOut(v) && sort(v.out.value.frame).Some? then 1 else 0
  }

  lemma UnconfirmedFrames<F(!new), R(!new), T>(log: seq<Entry<F, R>>, v: Link<F, R>, sort: F -> Option<T>)
    requires Current(log, v)
    ensures |Collect(Unconfirmed(log), sort)| == |Collect(v.abandoned, sort)| + UnderWay(v, sort)
  {
    if CountedOut(v) {
      var n := |log| - 1;
      Last(log);
      UnconfirmedAppend(log[..n], log[n]);
      CollectAppend(v.abandoned, log[n].frame, sort);
    }
  }

  /**
   The promise of the procedure. The receiver acts on a subsequence of the frames issued, so each at
   most once and in order; the sender sees a subsequence of those confirmed, each exactly as the
   receiver answered it.
   */
  lemma Promise<F(!new), R(!new)>(v: Link<F, R>)
    requires Good(v)
    ensures Subsequence(Firsts(v.acted), v.sent)
    ensures Subsequence(v.answered, v.acted)
  {
    var log: seq<Entry<F, R>> :| Explains(log, v.sent, v.acted, v.answered) && Current(log, v);
    var acted := ActedInOrder(log);
    var answered := AnsweredInOrder(log);
  }

  /**
   The count is exact. Of the frames of any sort, those issued are those confirmed, those abandoned
   and at most the one under way. So every frame not confirmed cost a transaction of its own sort.
   */
  lemma NothingElseMissing<F(!new), R(!new), T>(v: Link<F, R>, sort: F -> Option<T>)
    requires Good(v)
    ensures |Collect(v.sent, sort)|
            == |Collect(v.answered, FirstOf(sort))| + |Collect(v.abandoned, sort)| + UnderWay(v, sort)
  {
    var log: seq<Entry<F, R>> :| Explains(log, v.sent, v.acted, v.answered) && Current(log, v);
    ConfirmedOrNot(log, sort);
    UnconfirmedFrames(log, v, sort);
  }

  /** Answers the sender never saw were given to abandoned frames of their sort, or to the one under way. */
  lemma NoOtherAnswerMissed<F(!new), R(!new), T, U>(v: Link<F, R>, what: ((F, R)) -> Option<T>, sort: F -> Option<U>)
    requires Good(v) && BroughtBy(what, sort)
    ensures |Collect(v.acted, what)| <= |Collect(v.answered, what)| + |Collect(v.abandoned, sort)| + UnderWay(v, sort)
  {
    var log: seq<Entry<F, R>> :| Explains(log, v.sent, v.acted, v.answered) && Current(log, v);
    MissedAnswers(log, what, sort);
    UnconfirmedFrames(log, v, sort);
  }
}
