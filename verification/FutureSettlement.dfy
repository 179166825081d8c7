/** What a future settles with, what becomes of later settlers, and the order in which watchers are called. */
module FutureSettlement {
  import opened Basics
  import opened FutureWatchers

  // ----- The outcome -----

  /** The `i`-th step is the first that sets the future. */
  ghost predicate FirstMark(es: seq<Event>, i: nat) {
    i < |es| && es[i].Mark? && forall j :: 0 <= j < i ==> !es[j].Mark?
  }

  /** Settlers that have not begun are as they were, and one that found the future set has thrown. */
  ghost predicate Settling(s: State, start: State) {
    && s.settlers.Keys == start.settlers.Keys
    && forall k :: k in s.settlers && s.settlers[k].Marking? ==> s.settlers[k] == start.settlers[k]
  }

  lemma StepSettling(s: State, e: Event, start: State)
    requires Enabled(s, e) && Settling(s, start)
    ensures Settling(Step(s, e), start)
    ensures Step(s, e).outcome ==
            if s.outcome == None && e.Mark? then Some(start.settlers[e.k].o) else s.outcome
  {
  }

  lemma StepThrown(s: State, e: Event, k: nat)
    requires Enabled(s, e) && k in s.settlers
    requires s.settlers[k] == Threw || (s.outcome.Some? && e == Mark(k))
    ensures k in Step(s, e).settlers && Step(s, e).settlers[k] == Threw
  {
  }

  lemma {:induction false} RunSettling(ss: seq<State>, es: seq<Event>, n: nat)
    requires Run(ss, es) && n < |ss|
    ensures Settling(ss[n], ss[0])
  {
    hide Step, Enabled, Settling;
    if n == 0 {
      StartSettling(ss[0]);
    } else {
      RunSettling(ss, es, n - 1);
      assert StepAt(ss, es, n - 1);
      StepSettling(ss[n - 1], es[n - 1], ss[0]);
    }
  }

  lemma StartSettling(s: State)
    ensures Settling(s, s)
  {
  }

  /** In every run the future holds what the first of its settlers set it to, value or exception, from that step on,
      and nothing before. */
  lemma {:induction false} HoldsFirst(ss: seq<State>, es: seq<Event>, n: nat)
    requires Run(ss, es) && n < |ss|
    ensures ss[n].outcome.Some? <==> exists i: nat :: i < n && FirstMark(es, i)
    ensures forall i: nat :: i < n && FirstMark(es, i) ==>
              es[i].k in ss[0].settlers && ss[0].settlers[es[i].k].Marking? && ss[n].outcome == Some(ss[0].settlers[es[i].k].o)
  {
    hide Step, Enabled, Settling;
    if n == 0 {
    } else {
      HoldsFirst(ss, es, n - 1);
      RunSettling(ss, es, n - 1);
      assert StepAt(ss, es, n - 1);
      StepSettling(ss[n - 1], es[n - 1], ss[0]);
      MarkIsEnabled(ss[n - 1], es[n - 1], ss[0]);
      if ss[n - 1].outcome == None && es[n - 1].Mark? {
        NoMarkBefore(ss, es, n - 1);
        assert FirstMark(es, n - 1);
      }
    }
  }

  lemma MarkIsEnabled(s: State, e: Event, start: State)
    requires Enabled(s, e) && Settling(s, start)
    ensures e.Mark? ==> e.k in start.settlers && start.settlers[e.k].Marking?
  {
  }

  /** Without a first there is none. */
  lemma NoMarkBefore(ss: seq<State>, es: seq<Event>, n: nat)
    requires n <= |es| && forall i: nat :: i < n ==> !FirstMark(es, i)
    ensures forall i :: 0 <= i < n ==> !es[i].Mark?
  {
    if exists i :: 0 <= i < n && es[i].Mark? {
      var i := Least(es, n);
    }
  }

  lemma Least(es: seq<Event>, n: nat) returns (i: nat)
    requires n <= |es| && exists i :: 0 <= i < n && es[i].Mark?
    ensures i < n && FirstMark(es, i)
  {
    i := 0;
    while !es[i].Mark?
      invariant 0 <= i < n && forall j :: 0 <= j < i ==> !es[j].Mark?
      decreases n - i
    {
      i := i + 1;
    }
  }

  /** Whoever sets the future after the first gets the "duplicated" exception, and nothing else comes of it. */
  lemma {:induction false} LaterThrow(ss: seq<State>, es: seq<Event>, j: nat, n: nat)
    requires Run(ss, es) && j < n < |ss| && es[j].Mark? && ss[j].outcome.Some?
    ensures es[j].k in ss[n].settlers && ss[n].settlers[es[j].k] == Threw
    decreases n
  {
    hide Step, Enabled;
    assert StepAt(ss, es, n - 1);
    if j < n - 1 {
      LaterThrow(ss, es, j, n - 1);
    } else {
      MarkHasSettler(ss[j], es[j]);
    }
    StepThrown(ss[n - 1], es[n - 1], es[j].k);
  }

  lemma MarkHasSettler(s: State, e: Event)
    requires Enabled(s, e) && e.Mark?
    ensures e.k in s.settlers
  {
  }

  // ----- The order of the watchers -----

  /** The watchers of the list were pushed one after the other. */
  ghost predicate PushOrder(ws: seq<nat>, pushAt: map<nat, nat>) {
    forall i, j :: 0 <= i < j < |ws| && ws[i] in pushAt && ws[j] in pushAt ==> pushAt[ws[i]] < pushAt[ws[j]]
  }

  /** Those called, then those taken, and those still waiting: all in the order in which they were pushed. */
  ghost predicate Ordered(s: State) {
    PushOrder(s.ran + Taken(s), s.pushAt) && PushOrder(s.watchers, s.pushAt)
  }

  lemma PushedNow(ws: seq<nat>, pushAt: map<nat, nat>, w: nat, clock: nat)
    requires PushOrder(ws, pushAt) && w !in ws && forall x :: x in pushAt ==> pushAt[x] < clock
    ensures PushOrder(ws, pushAt[w := clock]) && PushOrder(ws + [w], pushAt[w := clock])
  {
  }

  lemma CalledNow(ran: seq<nat>, taken: seq<nat>, pushAt: map<nat, nat>, w: nat)
    requires PushOrder(ran + taken, pushAt) && w !in pushAt
    ensures PushOrder(ran + [w] + taken, pushAt)
  {
    var a, b := ran + taken, ran + [w] + taken;
    forall i, j | 0 <= i < j < |b| && b[i] in pushAt && b[j] in pushAt ensures pushAt[b[i]] < pushAt[b[j]] {
      var i', j' := if i < |ran| then i else i - 1, if j < |ran| then j else j - 1;
      assert a[i'] == b[i] && a[j'] == b[j];
    }
  }

  /** Before the swap nobody who was pushed has been called. */
  lemma NobodyYet(ran: seq<nat>, ws: seq<nat>, pushAt: map<nat, nat>)
    requires PushOrder(ws, pushAt) && forall w :: w in ran ==> w !in pushAt
    ensures PushOrder(ran + ws, pushAt)
  {
    var a := ran + ws;
    assert forall k :: 0 <= k < |ran| ==> a[k] == ran[k] && a[k] !in pushAt;
    forall i, j | 0 <= i < j < |a| && a[i] in pushAt && a[j] in pushAt ensures pushAt[a[i]] < pushAt[a[j]] {
      assert a[i] == ws[i - |ran|] && a[j] == ws[j - |ran|];
    }
  }

  lemma StepOrdered(s: State, e: Event)
    requires Inv(s) && Enabled(s, e) && Ordered(s)
    ensures Ordered(Step(s, e))
  {
    StepTaken(s, e);
    var r := Step(s, e);
    match e
    case Push(t) =>
      FreshPush(s, t);
      PushedNow(s.watchers, s.pushAt, t, s.clock);
      PushedNow(s.ran + Taken(s), s.pushAt, t, s.clock);
    case Call(t) =>
      NeverPushed(s, t);
      CalledNow(s.ran, Taken(s), s.pushAt, t);
    case Swap(_) =>
      NoneCalled(s);
      NobodyYet(s.ran, s.watchers, s.pushAt);
    case Deliver(_) =>
      if Taken(s) != [] {
        assert s.ran + [Taken(s)[0]] + Taken(s)[1..] == s.ran + Taken(s);
      }
    case _ =>
  }

  lemma FreshPush(s: State, t: nat)
    requires Inv(s) && Enabled(s, Push(t))
    ensures t !in s.watchers && t !in s.ran + Taken(s)
    ensures forall x :: x in s.pushAt ==> s.pushAt[x] < s.clock
  {
    assert Placed(s, t) && !Registered(s, t);
    assert multiset(s.watchers)[t] == 0 && multiset(s.ran)[t] == 0 && multiset(Taken(s))[t] == 0;
    forall x | x in s.pushAt ensures s.pushAt[x] < s.clock {
      assert Timed(s, x);
    }
  }

  lemma NeverPushed(s: State, t: nat)
    requires Inv(s) && Enabled(s, Call(t))
    ensures t !in s.pushAt
  {
    assert Timed(s, t);
  }

  lemma NoneCalled(s: State)
    requires Inv(s) && s.swapAt == None
    ensures forall w :: w in s.ran ==> w !in s.pushAt
  {
    forall w | w in s.ran ensures w !in s.pushAt {
      assert Timed(s, w);
    }
  }

  lemma {:induction false} RunOrdered(ss: seq<State>, es: seq<Event>, n: nat)
    requires Run(ss, es) && n < |ss|
    ensures Ordered(ss[n])
  {
    hide Step, Enabled, Inv;
    if n == 0 {
    } else {
      RunOrdered(ss, es, n - 1);
      RunInv(ss, es, n - 1);
      assert StepAt(ss, es, n - 1);
      StepOrdered(ss[n - 1], es[n - 1]);
    }
  }

  /** In every run the watchers that were pushed are called in the order in which they were pushed. */
  lemma CalledInOrder(ss: seq<State>, es: seq<Event>, n: nat, i: nat, j: nat, a: nat, b: nat)
    requires Run(ss, es) && n < |ss| && i < j < |ss[n].ran|
    requires a < n && b < n && es[a] == Push(ss[n].ran[i]) && es[b] == Push(ss[n].ran[j])
    ensures a < b
  {
    RunOrdered(ss, es, n);
    StepsAreOnce(ss, es, a, n, ss[n].ran[i]);
    StepsAreOnce(ss, es, b, n, ss[n].ran[j]);
    var line := ss[n].ran + Taken(ss[n]);
    assert line[i] == ss[n].ran[i] && line[j] == ss[n].ran[j];
  }
}
