/**
 The STARTDT/STOPDT procedure as a channel tells it: when the reader of a channel is active, what
 confirmations are still to come, and why a stop must not be requested behind an unconfirmed stop
 that a start has already followed.
 */
module Handshake {
  import opened Octets
  import opened Collecting
  import opened Apci
  import opened Connection
  import opened DataFlow

  /** What a frame asks of a reader in the given role, or confirms to it. */
  function Asks(r: Role, a: Apdu): Option<Ctrl> {
    match r
    case Controlled => if a == U(StartDtActive) then Some(StartDt) else if a == U(StopDtActive) then Some(StopDt) else None
    case Master => if a == U(StartDtConfirm) then Some(StartDt) else if a == U(StopDtConfirm) then Some(StopDt) else None
  }

  /** Whether a reader is active once it has taken a frame. */
  function After(r: Role, active: bool, a: Apdu): bool {
    match Asks(r, a) case Some(ctrl) => ctrl.StartDt? case None => active
  }

  /** Whether it is active once it has taken the whole channel. */
  function Ends(r: Role, active: bool, ch: Channel): bool
    decreases |ch|
  {
    if ch == [] then active else Ends(r, After(r, active, ch[0]), ch[1..])
  }

  /** Every I-frame of the channel finds its reader active. */
  predicate Welcome(r: Role, active: bool, ch: Channel)
    decreases |ch|
  {
    ch == [] || ((ch[0].I? ==> active) && Welcome(r, After(r, active, ch[0]), ch[1..]))
  }

  /** What the channel asks of its reader, in order. */
  function Reads(r: Role, ch: Channel): seq<Ctrl> { Collect(ch, (a: Apdu) => Asks(r, a)) }

  lemma ReadsAppend(r: Role, ch: Channel, a: Apdu)
    ensures Reads(r, ch + [a]) == Reads(r, ch) + (match Asks(r, a) case Some(ctrl) => [ctrl] case None => [])
  {
    CollectAppend(ch, a, (a: Apdu) => Asks(r, a));
  }

  lemma {:induction false} Appended(r: Role, active: bool, ch: Channel, a: Apdu)
    ensures Ends(r, active, ch + [a]) == After(r, Ends(r, active, ch), a)
    ensures Welcome(r, active, ch + [a]) <==> Welcome(r, active, ch) && (a.I? ==> Ends(r, active, ch))
    decreases |ch|
  {
    if ch == [] {
      assert ch + [a] == [a];
    } else {
      assert (ch + [a])[1..] == ch[1..] + [a];
      Appended(r, After(r, active, ch[0]), ch[1..], a);
    }
  }

  /** A frame that neither starts nor stops its reader, and carries no data. */
  predicate Neutral(r: Role, a: Apdu) { !a.I? && Asks(r, a).None? }

  lemma {:induction false} AppendedNeutral(r: Role, active: bool, ch: Channel, out: Channel)
    requires forall i :: 0 <= i < |out| ==> Neutral(r, out[i])
    ensures Ends(r, active, ch + out) == Ends(r, active, ch)
    ensures Welcome(r, active, ch) ==> Welcome(r, active, ch + out)
    ensures Reads(r, ch + out) == Reads(r, ch)
    decreases |out|
  {
    if out == [] {
      assert ch + out == ch;
    } else {
      Appended(r, active, ch, out[0]);
      ReadsAppend(r, ch, out[0]);
      AppendedNeutral(r, active, ch + [out[0]], out[1..]);
      assert ch + out == ch + [out[0]] + out[1..];
    }
  }

  /** A stopped reader with no start on its way has no data on its way. */
  lemma {:induction false} StoppedIsEmpty(r: Role, ch: Channel)
    requires Welcome(r, false, ch) && StartDt !in Reads(r, ch)
    ensures Payloads(ch) == []
  {
    if ch != [] {
      CollectCons(ch[0], ch[1..], (a: Apdu) => Asks(r, a));
      assert [ch[0]] + ch[1..] == ch;
      StoppedIsEmpty(r, ch[1..]);
    }
  }

  // ---- overlapping requests ----

  /** A stop that a start follows. */
  ghost predicate Reopens(s: seq<Ctrl>) {
    exists i, j :: 0 <= i < j < |s| && s[i] == StopDt && s[j] == StartDt
  }

  lemma SubsequenceReopens(sub: seq<Ctrl>, all: seq<Ctrl>)
    requires Subsequence(sub, all)
    ensures Reopens(sub) ==> Reopens(all)
    ensures StartDt in sub ==> StartDt in all
  {
    var at: seq<nat> :| Picks(at, sub, all);
    if Reopens(sub) {
      var i, j :| 0 <= i < j < |sub| && sub[i] == StopDt && sub[j] == StartDt;
      assert at[i] < at[j] && all[at[i]] == StopDt && all[at[j]] == StartDt;
    }
  }

  lemma StopAppended(s: seq<Ctrl>)
    ensures Reopens(s + [StopDt]) ==> Reopens(s)
  {
    if Reopens(s + [StopDt]) {
      var i, j :| 0 <= i < j < |s + [StopDt]| && (s + [StopDt])[i] == StopDt && (s + [StopDt])[j] == StartDt;
      assert s[i] == StopDt && s[j] == StartDt;
    }
  }

  /** A start behind a stop reopens it. */
  lemma AfterStop(s: seq<Ctrl>)
    ensures StartDt in s || Reopens(s) ==> Reopens([StopDt] + s)
  {
    Later(StopDt, s);
    if StartDt in s {
      var j :| 0 <= j < |s| && s[j] == StartDt;
      assert ([StopDt] + s)[0] == StopDt && ([StopDt] + s)[j + 1] == StartDt;
    }
  }

  lemma Later(x: Ctrl, s: seq<Ctrl>)
    ensures Reopens(s) ==> Reopens([x] + s)
  {
    if Reopens(s) {
      var i, j :| 0 <= i < j < |s| && s[i] == StopDt && s[j] == StartDt;
      assert ([x] + s)[i + 1] == StopDt && ([x] + s)[j + 1] == StartDt;
    }
  }

  lemma Dropped(a: seq<Ctrl>, x: Ctrl, b: seq<Ctrl>)
    ensures Reopens(a + b) ==> Reopens(a + [x] + b)
    ensures StartDt in a + b ==> StartDt in a + [x] + b
  {
    var s := a + [x] + b;
    if Reopens(a + b) {
      var i, j :| 0 <= i < j < |a + b| && (a + b)[i] == StopDt && (a + b)[j] == StartDt;
      var i', j' := if i < |a| then i else i + 1, if j < |a| then j else j + 1;
      assert s[i'] == StopDt && s[j'] == StartDt;
    }
    if StartDt in a + b {
      var i :| 0 <= i < |a + b| && (a + b)[i] == StartDt;
      assert s[if i < |a| then i else i + 1] == StartDt;
    }
  }
}
