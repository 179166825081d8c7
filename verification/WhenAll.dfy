/** WhenAll under every interleaving of its callbacks.

    Callback `k` writes slot `k`, then decrements the shared counter, then, if it saw a count of one,
    sets the joint promise.  Each of these is one step; the callback of an input runs after the input
    has settled. */
module WhenAll {
  import opened Basics

  datatype Pc = Idle | Wrote | Setting | Done

  /** `inputs` are the futures given to WhenAll; `failed` records a second set of the joint promise. */
  datatype State = State(
    inputs: seq<int>,
    settled: set<nat>,
    slots: seq<Option<int>>,
    waitCount: int,
    pcs: seq<Pc>,
    joint: Option<seq<Option<int>>>,
    failed: bool)

  /** An empty list of inputs settles the joint promise at once. */
  function Start(inputs: seq<int>): (s: State) {
    var n := |inputs|;
    State(inputs, {}, seq(n, _ => None), n, seq(n, _ => Idle), if n == 0 then Some([]) else None, false)
  }

  datatype Event = Settle(k: nat) | Write(k: nat) | Decrement(k: nat) | SetJoint(k: nat)

  predicate Enabled(s: State, e: Event) {
    && |s.pcs| == |s.slots| == |s.inputs| && e.k < |s.pcs|
    && match e
       case Settle(k) => true
       case Write(k) => k in s.settled && s.pcs[k] == Idle
       case Decrement(k) => s.pcs[k] == Wrote
       case SetJoint(k) => s.pcs[k] == Setting
  }

  function Step(s: State, e: Event): (r: State)
    requires Enabled(s, e)
  {
    match e
    case Settle(k) => s.(settled := s.settled + {k})
    case Write(k) => s.(slots := s.slots[k := Some(s.inputs[k])], pcs := s.pcs[k := Wrote])
    case Decrement(k) =>
      s.(waitCount := s.waitCount - 1, pcs := s.pcs[k := if s.waitCount > 1 then Done else Setting])
    case SetJoint(k) =>
      var t := s.(pcs := s.pcs[k := Done]);
      if s.joint.Some? then t.(failed := true) else t.(joint := Some(s.slots))
  }

  // ----- Counting the callbacks that have decremented -----

  ghost predicate Counted(pc: Pc) { pc == Setting || pc == Done }

  ghost function Count(pcs: seq<Pc>): nat {
    if pcs == [] then 0 else (if Counted(pcs[0]) then 1 else 0) + Count(pcs[1..])
  }

  lemma {:induction false} CountUpdate(pcs: seq<Pc>, k: nat, pc: Pc)
    requires k < |pcs|
    ensures Count(pcs[k := pc]) == Count(pcs) - (if Counted(pcs[k]) then 1 else 0) + (if Counted(pc) then 1 else 0)
  {
    if k > 0 {
      CountUpdate(pcs[1..], k - 1, pc);
      assert pcs[k := pc][1..] == pcs[1..][k - 1 := pc];
    } else {
      assert pcs[k := pc][1..] == pcs[1..];
    }
  }

  lemma {:induction false} CountBound(pcs: seq<Pc>)
    ensures Count(pcs) <= |pcs|
    ensures Count(pcs) == |pcs| <==> forall k :: 0 <= k < |pcs| ==> Counted(pcs[k])
  {
    if pcs == [] {
    } else {
      CountBound(pcs[1..]);
      assert forall k :: 0 <= k < |pcs| ==> pcs[k] == if k == 0 then pcs[0] else pcs[1..][k - 1];
      if forall k :: 0 <= k < |pcs| ==> Counted(pcs[k]) {
        assert forall k :: 0 <= k < |pcs[1..]| ==> pcs[1..][k] == pcs[k + 1];
      }
    }
  }

  lemma {:induction false} CountNone(n: nat)
    ensures Count(seq(n, _ => Idle)) == 0
  {
    if n == 0 {
    } else {
      CountNone(n - 1);
      assert seq(n, _ => Idle)[1..] == seq(n - 1, _ => Idle);
    }
  }

  // ----- The invariant -----

  ghost predicate AllWritten(s: State, slots: seq<Option<int>>) {
    |slots| == |s.inputs| && forall k :: 0 <= k < |slots| ==> slots[k] == Some(s.inputs[k])
  }

  ghost predicate Inv(s: State) {
    && |s.pcs| == |s.slots| == |s.inputs| && !s.failed
    && s.waitCount == |s.pcs| - Count(s.pcs)
    && (forall k :: 0 <= k < |s.pcs| && s.pcs[k] != Idle ==> k in s.settled && s.slots[k] == Some(s.inputs[k]))
    && (forall i, j :: 0 <= i < |s.pcs| && 0 <= j < |s.pcs| && s.pcs[i] == Setting && s.pcs[j] == Setting ==> i == j)
    && (forall k :: 0 <= k < |s.pcs| && s.pcs[k] == Setting ==> s.waitCount == 0 && s.joint == None)
    && (s.joint.Some? ==> s.waitCount == 0 && AllWritten(s, s.joint.value))
    && (s.waitCount == 0 && s.joint == None ==> exists k :: 0 <= k < |s.pcs| && s.pcs[k] == Setting)
  }

  lemma StartInv(inputs: seq<int>)
    ensures Inv(Start(inputs))
  {
    CountNone(|inputs|);
    assert Start(inputs).pcs == seq(|inputs|, _ => Idle);
  }

  lemma DecrementInv(s: State, k: nat)
    requires Inv(s) && Enabled(s, Decrement(k))
    ensures Inv(Step(s, Decrement(k)))
  {
    CountUpdate(s.pcs, k, if s.waitCount > 1 then Done else Setting);
    CountBound(s.pcs);
    assert s.waitCount > 0;
    var r := Step(s, Decrement(k));
    assert r.pcs[k] == Setting || r.waitCount > 0;
  }

  lemma SetInv(s: State, k: nat)
    requires Inv(s) && Enabled(s, SetJoint(k))
    ensures Inv(Step(s, SetJoint(k)))
  {
    CountUpdate(s.pcs, k, Done);
    CountBound(s.pcs);
  }

  lemma StepInv(s: State, e: Event)
    requires Inv(s) && Enabled(s, e)
    ensures Inv(Step(s, e)) && Step(s, e).inputs == s.inputs
    ensures s.joint.Some? ==> Step(s, e).joint == s.joint
  {
    match e
    case Settle(k) =>
    case Write(k) =>
      CountUpdate(s.pcs, k, Wrote);
      var r := Step(s, e);
      assert forall j :: 0 <= j < |s.pcs| && j != k ==> r.pcs[j] == s.pcs[j] && r.slots[j] == s.slots[j];
    case Decrement(k) => DecrementInv(s, k);
    case SetJoint(k) => SetInv(s, k);
  }

  // ----- Whole runs -----

  ghost predicate StepAt(ss: seq<State>, es: seq<Event>, i: nat)
    requires i < |es| < |ss|
  {
    Enabled(ss[i], es[i]) && ss[i + 1] == Step(ss[i], es[i])
  }

  ghost predicate Run(inputs: seq<int>, ss: seq<State>, es: seq<Event>) {
    && |ss| == |es| + 1 && ss[0] == Start(inputs)
    && forall i :: 0 <= i < |es| ==> StepAt(ss, es, i)
  }

  lemma {:induction false} RunInv(inputs: seq<int>, ss: seq<State>, es: seq<Event>, n: nat)
    requires Run(inputs, ss, es) && n < |ss|
    ensures Inv(ss[n]) && ss[n].inputs == inputs
  {
    if n == 0 {
      StartInv(inputs);
    } else {
      RunInv(inputs, ss, es, n - 1);
      assert StepAt(ss, es, n - 1);
      StepInv(ss[n - 1], es[n - 1]);
    }
  }

  /** In every state of every run: the joint promise is never set twice, it is set only when every
      input has settled and then slot `k` holds future `k`, and it is set once every callback has
      finished. */
  lemma JointPromise(inputs: seq<int>, ss: seq<State>, es: seq<Event>, n: nat)
    requires Run(inputs, ss, es) && n < |ss|
    ensures var s := ss[n];
            && !s.failed && |s.pcs| == |inputs|
            && (s.joint.Some? ==> |s.joint.value| == |inputs|
                                  && forall k :: 0 <= k < |inputs| ==> k in s.settled && s.joint.value[k] == Some(inputs[k]))
            && ((forall k :: 0 <= k < |inputs| ==> s.pcs[k] == Done) ==> s.joint.Some?)
  {
    RunInv(inputs, ss, es, n);
    CountBound(ss[n].pcs);
  }

  /** Once set, the joint value stays. */
  lemma {:induction false} JointIsFinal(inputs: seq<int>, ss: seq<State>, es: seq<Event>, i: nat, j: nat)
    requires Run(inputs, ss, es) && i <= j < |ss| && ss[i].joint.Some?
    ensures ss[j].joint == ss[i].joint
    decreases j
  {
    if i < j {
      JointIsFinal(inputs, ss, es, i, j - 1);
      RunInv(inputs, ss, es, j - 1);
      assert StepAt(ss, es, j - 1);
      StepInv(ss[j - 1], es[j - 1]);
    }
  }
}
