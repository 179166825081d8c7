/** WhenAll registers its callbacks with `then`, that is as watchers of the input futures, so a callback
    may be missed.  Both models run here side by side: a callback starts when its future calls it. */
module WhenAllWatchers {
  import F = FutureWatchers
  import W = WhenAll

  /** The input futures and the state that the callbacks share. */
  datatype State = State(futures: seq<F.State>, all: W.State)

  /** A step of one input future, or of one callback. */
  datatype Event = OnFuture(k: nat, e: F.Event) | OnCallback(c: W.Event)

  /** `watchers[k]` is the watcher that WhenAll appended to future `k`. */
  ghost predicate Init(s: State, inputs: seq<int>, watchers: seq<nat>) {
    && |s.futures| == |inputs| == |watchers| && s.all == W.Start(inputs)
    && forall k :: 0 <= k < |watchers| ==> F.Init(s.futures[k]) && watchers[k] in s.futures[k].appenders
  }

  /** The future has called the callback. */
  predicate Called(s: State, watchers: seq<nat>, k: nat)
    requires |watchers| == |s.futures|
  {
    k < |watchers| && watchers[k] in s.futures[k].ran
  }

  predicate Enabled(s: State, watchers: seq<nat>, e: Event)
    requires |watchers| == |s.futures|
  {
    match e
    case OnFuture(k, fe) => k < |s.futures| && F.Enabled(s.futures[k], fe) && W.Enabled(s.all, W.Settle(k))
    case OnCallback(c) => !c.Settle? && W.Enabled(s.all, c) && (c.Write? ==> Called(s, watchers, c.k))
  }

  /** Settling a future is what WhenAll sees of it. */
  function Step(s: State, watchers: seq<nat>, e: Event): (r: State)
    requires |watchers| == |s.futures| && Enabled(s, watchers, e)
    ensures |r.futures| == |s.futures|
  {
    match e
    case OnFuture(k, fe) =>
      var f := F.Step(s.futures[k], fe);
      State(s.futures[k := f], if f.outcome.Some? then W.Step(s.all, W.Settle(k)) else s.all)
    case OnCallback(c) => s.(all := W.Step(s.all, c))
  }

  // ----- The invariant -----

  ghost predicate Linked(s: State, watchers: seq<nat>, k: nat)
    requires |watchers| == |s.futures| == |s.all.pcs| && k < |watchers|
  {
    && F.Inv(s.futures[k])
    && (k in s.all.settled <==> s.futures[k].outcome.Some?)
    && (s.all.pcs[k] != W.Idle ==> Called(s, watchers, k))
  }

  ghost predicate Inv(s: State, inputs: seq<int>, watchers: seq<nat>) {
    && |watchers| == |s.futures| == |s.all.pcs| && W.Inv(s.all) && s.all.inputs == inputs
    && forall k :: 0 <= k < |watchers| ==> Linked(s, watchers, k)
  }

  lemma InitInv(s: State, inputs: seq<int>, watchers: seq<nat>)
    requires Init(s, inputs, watchers)
    ensures Inv(s, inputs, watchers)
  {
    W.StartInv(inputs);
    forall k | 0 <= k < |watchers| ensures Linked(s, watchers, k) {
      F.InitInv(s.futures[k]);
    }
  }

  lemma FutureStep(f: F.State, e: F.Event, w: nat)
    requires F.Inv(f) && F.Enabled(f, e)
    ensures F.Inv(F.Step(f, e))
    ensures w in f.ran ==> w in F.Step(f, e).ran
    ensures f.outcome.Some? ==> F.Step(f, e).outcome.Some?
  {
    F.StepInv(f, e);
  }

  lemma OnFutureInv(s: State, inputs: seq<int>, watchers: seq<nat>, k: nat, fe: F.Event)
    requires Inv(s, inputs, watchers) && Enabled(s, watchers, OnFuture(k, fe))
    ensures Inv(Step(s, watchers, OnFuture(k, fe)), inputs, watchers)
  {
    hide F.Inv, F.Step, F.Enabled, W.Inv;
    assert Linked(s, watchers, k);
    FutureStep(s.futures[k], fe, watchers[k]);
    W.StepInv(s.all, W.Settle(k));
    var r := Step(s, watchers, OnFuture(k, fe));
    forall j | 0 <= j < |watchers| ensures Linked(r, watchers, j) {
      assert Linked(s, watchers, j);
    }
  }

  lemma OnCallbackInv(s: State, inputs: seq<int>, watchers: seq<nat>, c: W.Event)
    requires Inv(s, inputs, watchers) && Enabled(s, watchers, OnCallback(c))
    ensures Inv(Step(s, watchers, OnCallback(c)), inputs, watchers)
  {
    hide F.Inv, W.Inv;
    W.StepInv(s.all, c);
    var r := Step(s, watchers, OnCallback(c));
    forall j | 0 <= j < |watchers| ensures Linked(r, watchers, j) {
      assert Linked(s, watchers, j);
    }
  }

  // ----- Whole runs -----

  ghost predicate StepAt(watchers: seq<nat>, ss: seq<State>, es: seq<Event>, i: nat)
    requires i < |es| < |ss|
  {
    |watchers| == |ss[i].futures| && Enabled(ss[i], watchers, es[i]) && ss[i + 1] == Step(ss[i], watchers, es[i])
  }

  ghost predicate Run(inputs: seq<int>, watchers: seq<nat>, ss: seq<State>, es: seq<Event>) {
    && |ss| == |es| + 1 && Init(ss[0], inputs, watchers)
    && forall i :: 0 <= i < |es| ==> StepAt(watchers, ss, es, i)
  }

  lemma {:induction false} RunInv(inputs: seq<int>, watchers: seq<nat>, ss: seq<State>, es: seq<Event>, n: nat)
    requires Run(inputs, watchers, ss, es) && n < |ss|
    ensures Inv(ss[n], inputs, watchers)
  {
    hide Inv, Enabled, Step;
    if n == 0 {
      InitInv(ss[0], inputs, watchers);
    } else {
      RunInv(inputs, watchers, ss, es, n - 1);
      assert StepAt(watchers, ss, es, n - 1);
      match es[n - 1]
      case OnFuture(k, fe) => OnFutureInv(ss[n - 1], inputs, watchers, k, fe);
      case OnCallback(c) => OnCallbackInv(ss[n - 1], inputs, watchers, c);
    }
  }

  /** What future `k` went through. */
  function EventsOf(es: seq<Event>, k: nat): (r: seq<F.Event>) {
    if es == [] then []
    else
      var n := |es| - 1;
      EventsOf(es[..n], k) + if es[n].OnFuture? && es[n].k == k then [es[n].e] else []
  }

  lemma StepOfFuture(watchers: seq<nat>, s: State, e: Event, k: nat)
    requires |watchers| == |s.futures| && k < |watchers| && Enabled(s, watchers, e)
    ensures if e.OnFuture? && e.k == k
            then F.Enabled(s.futures[k], e.e) && Step(s, watchers, e).futures[k] == F.Step(s.futures[k], e.e)
            else Step(s, watchers, e).futures[k] == s.futures[k]
  {
  }

  /** The run of future `k` inside the first `n` steps. */
  lemma {:induction false} Projected(inputs: seq<int>, watchers: seq<nat>, ss: seq<State>, es: seq<Event>, n: nat, k: nat)
    returns (fs: seq<F.State>)
    requires Run(inputs, watchers, ss, es) && n < |ss| && k < |watchers|
    ensures |ss[n].futures| == |watchers| && F.Run(fs, EventsOf(es[..n], k))
    ensures fs[|EventsOf(es[..n], k)|] == ss[n].futures[k] && watchers[k] in fs[0].appenders
  {
    hide Enabled, Step;
    if n == 0 {
      fs := [ss[0].futures[k]];
      assert es[..0] == [];
    } else {
      fs := Projected(inputs, watchers, ss, es, n - 1, k);
      assert StepAt(watchers, ss, es, n - 1);
      var e := es[n - 1];
      assert es[..n][..n - 1] == es[..n - 1] && es[..n][n - 1] == e;
      StepOfFuture(watchers, ss[n - 1], e, k);
      if e.OnFuture? && e.k == k {
        var fes := EventsOf(es[..n - 1], k);
        fs, fes := F.Extend(fs, fes, e.e);
        assert EventsOf(es[..n], k) == fes;
      } else {
        assert EventsOf(es[..n], k) == EventsOf(es[..n - 1], k);
      }
    }
  }

  /** The futures are at rest and no callback can take a step. */
  ghost predicate AtRest(s: State, watchers: seq<nat>)
    requires |watchers| == |s.futures|
  {
    && (forall k :: 0 <= k < |s.futures| ==> F.Quiet(s.futures[k]))
    && (forall c :: !Enabled(s, watchers, OnCallback(c)))
  }

  /** At rest a callback that was called has finished, and one that was not has not begun. */
  lemma RestLinks(s: State, inputs: seq<int>, watchers: seq<nat>, k: nat)
    requires Inv(s, inputs, watchers) && AtRest(s, watchers) && k < |watchers|
    ensures s.all.pcs[k] == if Called(s, watchers, k) then W.Done else W.Idle
  {
    hide F.Inv, F.Quiet;
    assert Linked(s, watchers, k);
    CalledIsSettled(s.futures[k], watchers[k]);
    assert !Enabled(s, watchers, OnCallback(W.Write(k)));
    assert !Enabled(s, watchers, OnCallback(W.Decrement(k)));
    assert !Enabled(s, watchers, OnCallback(W.SetJoint(k)));
  }

  lemma CalledIsSettled(f: F.State, w: nat)
    requires F.Inv(f)
    ensures w in f.ran ==> f.outcome.Some?
  {
  }

  ghost predicate SomeMissed(es: seq<Event>, watchers: seq<nat>) {
    exists k :: 0 <= k < |watchers| && F.Missed(EventsOf(es, k), watchers[k])
  }

  /** Over every interleaving of all futures and callbacks: when everything is at rest, the joint promise is set
      if and only if no input's callback fell into the gap between the done check and the push. */
  lemma JointUnlessMissed(inputs: seq<int>, watchers: seq<nat>, ss: seq<State>, es: seq<Event>)
    requires Run(inputs, watchers, ss, es) && |watchers| == |ss[|es|].futures| && AtRest(ss[|es|], watchers)
    ensures ss[|es|].all.joint.Some? <==> !SomeMissed(es, watchers)
  {
    hide F.Quiet, F.Inv, F.Missed, AtRest, Inv;
    var s := ss[|es|];
    RunInv(inputs, watchers, ss, es, |es|);
    RestIsQuiet(s, watchers);
    InvShape(s, inputs, watchers);
    forall k | 0 <= k < |watchers|
      ensures s.all.pcs[k] == W.Done <==> !F.Missed(EventsOf(es, k), watchers[k])
    {
      RestLinks(s, inputs, watchers, k);
      assert es[..|es|] == es;
      var fs := Projected(inputs, watchers, ss, es, |es|, k);
      F.RanOnceUnlessMissed(fs, EventsOf(es, k), watchers[k]);
    }
  }

  lemma RestIsQuiet(s: State, watchers: seq<nat>)
    requires |watchers| == |s.futures| && AtRest(s, watchers)
    ensures forall k :: 0 <= k < |watchers| ==> F.Quiet(s.futures[k])
    ensures forall k :: 0 <= k < |s.all.pcs| == |s.all.slots| == |s.all.inputs| ==> s.all.pcs[k] != W.Setting
  {
    forall k | 0 <= k < |s.all.pcs| == |s.all.slots| == |s.all.inputs| ensures s.all.pcs[k] != W.Setting {
      assert !Enabled(s, watchers, OnCallback(W.SetJoint(k)));
    }
  }

  lemma InvShape(s: State, inputs: seq<int>, watchers: seq<nat>)
    requires Inv(s, inputs, watchers)
    ensures |watchers| == |s.all.pcs| == |s.all.slots| == |s.all.inputs|
    ensures (forall k :: 0 <= k < |s.all.pcs| ==> s.all.pcs[k] != W.Setting) ==>
              (s.all.joint.Some? <==> forall k :: 0 <= k < |s.all.pcs| ==> s.all.pcs[k] == W.Done)
  {
    hide F.Inv;
    W.CountBound(s.all.pcs);
  }
}
