/** Subsequences, and what a partial function collects from a list. */
module Collecting {
  import opened Octets

  /** sub is a subsequence of all: `at` gives the strictly increasing positions it keeps. */
  ghost predicate Picks<T>(at: seq<nat>, sub: seq<T>, all: seq<T>) {
    && |at| == |sub|
    && (forall i, j :: 0 <= i < j < |at| ==> at[i] < at[j])
    && forall i :: 0 <= i < |at| ==> at[i] < |all| && sub[i] == all[at[i]]
  }

  ghost predicate Subsequence<T>(sub: seq<T>, all: seq<T>) {
    exists at :: Picks(at, sub, all)
  }

  function Collect<A, T>(s: seq<A>, f: A -> Option<T>): seq<T> {
    if s == [] then []
    else (match f(s[0]) case Some(t) => [t] case None => []) + Collect(s[1..], f)
  }

  lemma {:induction false} CollectAppend<A, T>(s: seq<A>, x: A, f: A -> Option<T>)
    ensures Collect(s + [x], f) == Collect(s, f) + (match f(x) case Some(t) => [t] case None => [])
  {
    if s == [] {
      assert s + [x] == [x];
    } else {
      assert (s + [x])[1..] == s[1..] + [x];
      CollectAppend(s[1..], x, f);
    }
  }

  lemma CollectCons<A, T>(x: A, s: seq<A>, f: A -> Option<T>)
    ensures Collect([x] + s, f) == (match f(x) case Some(t) => [t] case None => []) + Collect(s, f)
  {
    assert ([x] + s)[1..] == s;
  }

  function Raise(at: seq<nat>): seq<nat> {
    seq(|at|, i requires 0 <= i < |at| => at[i] + 1)
  }

  function Lower(at: seq<nat>): seq<nat>
    requires forall i :: 0 <= i < |at| ==> at[i] > 0
  {
    seq<nat>(|at|, i requires 0 <= i < |at| => at[i] - 1)
  }

  lemma PicksStep<T>(at: seq<nat>, sub: seq<T>, all: seq<T>, x: T)
    requires Picks(at, sub, all)
    ensures Picks(Raise(at), sub, [x] + all)
    ensures Picks([0] + Raise(at), [x] + sub, [x] + all)
  {
  }

  lemma PicksSkip<T>(at: seq<nat>, sub: seq<T>, all: seq<T>)
    requires Picks(at, sub, all) && all != []
    requires at != [] ==> at[0] > 0
    ensures forall i :: 0 <= i < |at| ==> at[i] > 0
    ensures Picks(Lower(at), sub, all[1..])
  {
    forall i | 0 <= i < |at| ensures at[i] > 0 {
      if i > 0 { assert at[0] < at[i]; }
    }
    forall i | 0 <= i < |at| ensures Lower(at)[i] < |all[1..]| && sub[i] == all[1..][Lower(at)[i]] {
      assert all[1..][at[i] - 1] == all[at[i]];
    }
  }

  lemma PicksTake<T>(at: seq<nat>, sub: seq<T>, all: seq<T>)
    requires Picks(at, sub, all) && all != [] && at != [] && at[0] == 0
    ensures sub != [] && sub[0] == all[0]
    ensures forall i :: 0 <= i < |at[1..]| ==> at[1..][i] > 0
    ensures Picks(Lower(at[1..]), sub[1..], all[1..])
  {
    var rest := at[1..];
    forall i | 0 <= i < |rest| ensures rest[i] > 0 {
      assert at[0] < at[i + 1];
    }
    forall i | 0 <= i < |rest| ensures Lower(rest)[i] < |all[1..]| && sub[1..][i] == all[1..][Lower(rest)[i]] {
      assert rest[i] == at[i + 1] && sub[1..][i] == sub[i + 1] == all[at[i + 1]];
    }
  }

  /** Collecting from a subsequence gives a subsequence, and loses no more than the subsequence does. */
  lemma {:induction false} PicksCollect<A, T>(at: seq<nat>, sub: seq<A>, all: seq<A>, f: A -> Option<T>) returns (at': seq<nat>)
    requires Picks(at, sub, all)
    ensures Picks(at', Collect(sub, f), Collect(all, f))
    ensures |Collect(all, f)| - |Collect(sub, f)| <= |all| - |sub|
    decreases |all|
  {
    if all == [] {
      at' := [];
    } else if at != [] && at[0] == 0 {
      PicksTake(at, sub, all);
      at' := PicksCollect(Lower(at[1..]), sub[1..], all[1..], f);
      if f(all[0]).Some? {
        PicksStep(at', Collect(sub[1..], f), Collect(all[1..], f), f(all[0]).value);
        at' := [0] + Raise(at');
      } else {
        assert Collect(sub, f) == Collect(sub[1..], f) && Collect(all, f) == Collect(all[1..], f);
      }
    } else {
      PicksSkip(at, sub, all);
      at' := PicksCollect(Lower(at), sub, all[1..], f);
      if f(all[0]).Some? {
        PicksStep(at', Collect(sub, f), Collect(all[1..], f), f(all[0]).value);
        at' := Raise(at');
      } else {
        assert Collect(all, f) == Collect(all[1..], f);
      }
    }
  }

  lemma SubsequenceCollect<A, T>(sub: seq<A>, all: seq<A>, f: A -> Option<T>)
    requires Subsequence(sub, all)
    ensures Subsequence(Collect(sub, f), Collect(all, f))
    ensures |Collect(all, f)| - |Collect(sub, f)| <= |all| - |sub|
  {
    var at :| Picks(at, sub, all);
    var at' := PicksCollect(at, sub, all, f);
  }

  // ---- keeping a subsequence while both lists change ----

  lemma SubsequenceAppend<T>(sub: seq<T>, all: seq<T>, x: T)
    requires Subsequence(sub, all)
    ensures Subsequence(sub + [x], all + [x])
  {
    var at: seq<nat> :| Picks(at, sub, all);
    var at': seq<nat> := at + [|all|];
    assert Picks(at', sub + [x], all + [x]);
  }

  lemma SubsequenceDrop<T>(a: seq<T>, x: T, b: seq<T>, all: seq<T>)
    requires Subsequence(a + [x] + b, all)
    ensures Subsequence(a + b, all)
  {
    var at: seq<nat> :| Picks(at, a + [x] + b, all);
    var n := |a|;
    var at': seq<nat> := at[..n] + at[n + 1..];
    forall i | 0 <= i < |at'| ensures at'[i] < |all| && (a + b)[i] == all[at'[i]] {
      if i >= n {
        assert at'[i] == at[i + 1] && (a + b)[i] == (a + [x] + b)[i + 1];
      } else {
        assert at'[i] == at[i] && (a + b)[i] == (a + [x] + b)[i];
      }
    }
    assert Picks(at', a + b, all);
  }

  /** What follows the first x. */
  function AfterFirst<T(==)>(x: T, all: seq<T>): seq<T> {
    if all == [] then [] else if all[0] == x then all[1..] else AfterFirst(x, all[1..])
  }

  lemma {:induction false} SubsequenceTake<T>(x: T, sub: seq<T>, all: seq<T>)
    requires Subsequence([x] + sub, all)
    ensures Subsequence(sub, AfterFirst(x, all))
  {
    var at: seq<nat> :| Picks(at, [x] + sub, all);
    assert all[at[0]] == ([x] + sub)[0] == x;
    if all[0] == x {
      assert forall i :: 0 <= i < |sub| ==> sub[i] == ([x] + sub)[i + 1];
      assert Picks(at[1..], sub, all);
      PicksSkip(at[1..], sub, all);
    } else {
      PicksSkip(at, [x] + sub, all);
      SubsequenceTake(x, sub, all[1..]);
    }
  }
}
