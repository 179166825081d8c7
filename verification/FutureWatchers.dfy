/** FutureImpl under every interleaving of its critical sections.

    Any number of threads call setValue or setException and any number call appendWacther.  One step
    is one locked section or one watcher call.  The done check of appendWacther and its push are two
    sections, so the settler may run between them. */
module FutureWatchers {
  import opened Basics

  datatype Outcome = Value(v: int) | Exception(what: int)

  /** appendWacther: before the done check, before the push, before its own call, returned. */
  datatype Appender = Checking | Pushing | Calling | Appended

  /** setValue and setException: before the mark, before the swap, running the swapped watchers,
      returned, or left by the "duplicated" exception. */
  datatype Settler = Marking(o: Outcome) | Swapping | Delivering(rest: seq<nat>) | Returned | Threw

  /** Watchers are named by the appending thread.  The clock counts steps; the *At fields record
      when a step happened. */
  datatype State = State(
    outcome: Option<Outcome>,
    watchers: seq<nat>,
    appenders: map<nat, Appender>,
    settlers: map<nat, Settler>,
    ran: seq<nat>,
    clock: nat,
    winner: Option<nat>,
    settleAt: nat,
    swapAt: Option<nat>,
    checkAt: map<nat, nat>,
    pushAt: map<nat, nat>)

  ghost predicate Init(s: State) {
    && s.outcome == None && s.watchers == [] && s.ran == [] && s.clock == 0
    && s.winner == None && s.swapAt == None && s.checkAt == map[] && s.pushAt == map[]
    && (forall t :: t in s.appenders ==> s.appenders[t] == Checking)
    && (forall k :: k in s.settlers ==> s.settlers[k].Marking?)
  }

  datatype Event = Check(t: nat) | Push(t: nat) | Call(t: nat) | Mark(k: nat) | Swap(k: nat) | Deliver(k: nat)

  predicate Enabled(s: State, e: Event) {
    match e
    case Check(t) => t in s.appenders && s.appenders[t] == Checking
    case Push(t) => t in s.appenders && s.appenders[t] == Pushing
    case Call(t) => t in s.appenders && s.appenders[t] == Calling
    case Mark(k) => k in s.settlers && s.settlers[k].Marking?
    case Swap(k) => k in s.settlers && s.settlers[k] == Swapping
    case Deliver(k) => k in s.settlers && s.settlers[k].Delivering?
  }

  function Act(s: State, e: Event): (r: State)
    requires Enabled(s, e)
  {
    match e
    case Check(t) =>
      s.(appenders := s.appenders[t := if s.outcome == None then Pushing else Calling],
         checkAt := s.checkAt[t := s.clock])
    case Push(t) =>
      s.(watchers := s.watchers + [t], appenders := s.appenders[t := Appended], pushAt := s.pushAt[t := s.clock])
    case Call(t) => s.(ran := s.ran + [t], appenders := s.appenders[t := Appended])
    case Mark(k) =>
      if s.outcome != None then s.(settlers := s.settlers[k := Threw])
      else s.(outcome := Some(s.settlers[k].o), settlers := s.settlers[k := Swapping], winner := Some(k), settleAt := s.clock)
    case Swap(k) =>
      s.(watchers := [], settlers := s.settlers[k := Delivering(s.watchers)], swapAt := Some(s.clock))
    case Deliver(k) =>
      var rest := s.settlers[k].rest;
      if rest == [] then s.(settlers := s.settlers[k := Returned])
      else s.(ran := s.ran + [rest[0]], settlers := s.settlers[k := Delivering(rest[1..])])
  }

  function Step(s: State, e: Event): (r: State)
    requires Enabled(s, e)
  {
    Act(s, e).(clock := s.clock + 1)
  }

  // ----- The invariant -----

  /** The watchers the successful settler has taken but not yet called. */
  ghost function Taken(s: State): seq<nat> {
    if s.winner.Some? && s.winner.value in s.settlers && s.settlers[s.winner.value].Delivering?
    then s.settlers[s.winner.value].rest else []
  }

  ghost predicate Registered(s: State, w: nat) {
    w in s.appenders && s.appenders[w] == Appended
  }

  /** A watcher is waiting, taken or called exactly once after its append, and nowhere before. */
  ghost predicate Placed(s: State, w: nat) {
    multiset(s.watchers)[w] + multiset(Taken(s))[w] + multiset(s.ran)[w] == if Registered(s, w) then 1 else 0
  }

  /** At most one settler gets past the mark. */
  ghost predicate OneWinner(s: State) {
    && (s.outcome == None <==> s.winner == None)
    && (forall k :: k in s.settlers && !s.settlers[k].Marking? && s.settlers[k] != Threw ==> s.winner == Some(k))
    && (s.winner.Some? ==>
          && s.winner.value in s.settlers
          && !s.settlers[s.winner.value].Marking? && s.settlers[s.winner.value] != Threw
          && (s.swapAt == None <==> s.settlers[s.winner.value] == Swapping))
    && (s.swapAt.Some? ==> s.winner.Some?)
  }

  /** Nothing runs before settlement. */
  ghost predicate Settled(s: State) {
    && (s.ran != [] || Taken(s) != [] ==> s.outcome.Some?)
    && (forall t :: t in s.appenders && s.appenders[t] == Calling ==> s.outcome.Some?)
  }

  /** What the recorded times say about an appender's watcher. */
  ghost predicate Timed(s: State, w: nat) {
    && (w in s.appenders && s.appenders[w] != Checking ==> w in s.checkAt)
    && (w in s.checkAt ==> s.checkAt[w] < s.clock && w in s.appenders && s.appenders[w] != Checking)
    && (w in s.pushAt ==> w in s.checkAt && s.checkAt[w] < s.pushAt[w] < s.clock)
    && (w in s.appenders && (s.appenders[w] == Pushing || w in s.pushAt) && s.outcome.Some? ==> w in s.checkAt && s.checkAt[w] < s.settleAt)
    && (w in s.watchers ==> w in s.pushAt && (s.swapAt.Some? ==> s.swapAt.value < s.pushAt[w]))
    && (w in Taken(s) || w in s.ran ==> w in s.pushAt ==> s.swapAt.Some? && s.pushAt[w] < s.swapAt.value)
    && (w in Taken(s) ==> w in s.pushAt)
    && (w in s.pushAt ==> Registered(s, w))
  }

  ghost predicate Clocked(s: State) {
    && (s.outcome.Some? ==> s.settleAt < s.clock)
    && (s.swapAt.Some? ==> s.settleAt < s.swapAt.value < s.clock)
  }

  ghost predicate Inv(s: State) {
    && OneWinner(s) && Settled(s) && Clocked(s)
    && (forall w :: Placed(s, w))
    && (forall w :: Timed(s, w))
  }

  lemma InitInv(s: State)
    requires Init(s)
    ensures Inv(s)
  {
  }

  lemma StepWinner(s: State, e: Event)
    requires OneWinner(s) && Enabled(s, e)
    ensures OneWinner(Step(s, e))
  {
  }

  lemma StepTaken(s: State, e: Event)
    requires OneWinner(s) && Enabled(s, e)
    ensures Taken(Step(s, e)) ==
            match e
            case Swap(_) => s.watchers
            case Deliver(_) => if Taken(s) == [] then [] else Taken(s)[1..]
            case _ => Taken(s)
    ensures e.Swap? ==> Taken(s) == [] && s.swapAt == None && s.outcome.Some?
    ensures e.Deliver? ==> s.settlers[e.k].rest == Taken(s)
  {
  }

  lemma HeadCount(s: seq<nat>, w: nat)
    requires s != []
    ensures multiset(s)[w] == multiset(s[1..])[w] + (if w == s[0] then 1 else 0)
    ensures w in s <==> w == s[0] || w in s[1..]
  {
    assert s == [s[0]] + s[1..];
  }

  predicate ByAppender(e: Event) {
    e.Check? || e.Push? || e.Call?
  }

  lemma AppenderPlaced(s: State, e: Event, w: nat)
    requires OneWinner(s) && Enabled(s, e) && Placed(s, w) && ByAppender(e)
    ensures Placed(Step(s, e), w)
  {
    StepTaken(s, e);
    hide OneWinner, Taken;
  }

  lemma SettlerPlaced(s: State, e: Event, w: nat)
    requires OneWinner(s) && Enabled(s, e) && Placed(s, w) && !ByAppender(e)
    ensures Placed(Step(s, e), w)
  {
    StepTaken(s, e);
    hide OneWinner, Taken;
    if Taken(s) != [] { HeadCount(Taken(s), w); }
  }

  lemma StepPlaced(s: State, e: Event, w: nat)
    requires OneWinner(s) && Enabled(s, e) && Placed(s, w)
    ensures Placed(Step(s, e), w)
  {
    hide *;
    if ByAppender(e) { AppenderPlaced(s, e, w); } else { SettlerPlaced(s, e, w); }
  }

  lemma StepSettled(s: State, e: Event)
    requires OneWinner(s) && Settled(s) && Clocked(s) && Enabled(s, e)
    ensures Settled(Step(s, e)) && Clocked(Step(s, e))
  {
    StepTaken(s, e);
  }

  lemma StepTimed(s: State, e: Event, w: nat)
    requires OneWinner(s) && Clocked(s) && Settled(s) && Enabled(s, e) && Timed(s, w) && Placed(s, w)
    ensures Timed(Step(s, e), w)
  {
    StepTaken(s, e);
    if Taken(s) != [] { HeadCount(Taken(s), w); }
    if w in s.watchers { assert multiset(s.watchers)[w] > 0; }
    if w in s.ran { assert multiset(s.ran)[w] > 0; }
  }

  lemma StepInv(s: State, e: Event)
    requires Inv(s) && Enabled(s, e)
    ensures Inv(Step(s, e))
  {
    StepWinner(s, e);
    StepSettled(s, e);
    forall w ensures Placed(Step(s, e), w) && Timed(Step(s, e), w) {
      StepPlaced(s, e, w);
      StepTimed(s, e, w);
    }
  }

  // ----- Whole runs -----

  ghost predicate StepAt(ss: seq<State>, es: seq<Event>, i: nat)
    requires i < |es| < |ss|
  {
    Enabled(ss[i], es[i]) && ss[i + 1] == Step(ss[i], es[i])
  }

  /** The states `ss` are what the steps `es` lead through from an initial state. */
  ghost predicate Run(ss: seq<State>, es: seq<Event>) {
    && |ss| == |es| + 1 && Init(ss[0])
    && forall i :: 0 <= i < |es| ==> StepAt(ss, es, i)
  }

  ghost predicate ChecksAreSteps(s: State, es: seq<Event>) {
    forall t :: t in s.checkAt ==> s.checkAt[t] < s.clock <= |es| && es[s.checkAt[t]] == Check(t)
  }

  ghost predicate PushesAreSteps(s: State, es: seq<Event>) {
    forall t :: t in s.pushAt ==> s.pushAt[t] < s.clock <= |es| && es[s.pushAt[t]] == Push(t)
  }

  ghost predicate SettlingIsSteps(s: State, es: seq<Event>) {
    && (s.winner.Some? ==> s.settleAt < s.clock <= |es| && es[s.settleAt] == Mark(s.winner.value))
    && (s.swapAt.Some? ==> s.winner.Some? && s.swapAt.value < s.clock <= |es| && es[s.swapAt.value] == Swap(s.winner.value))
  }

  /** The recorded times are the positions of the steps in the run. */
  ghost predicate TimesAreSteps(s: State, es: seq<Event>) {
    ChecksAreSteps(s, es) && PushesAreSteps(s, es) && SettlingIsSteps(s, es)
  }

  lemma StepChecks(s: State, es: seq<Event>, e: Event)
    requires Enabled(s, e) && ChecksAreSteps(s, es) && s.clock < |es| && es[s.clock] == e
    ensures ChecksAreSteps(Step(s, e), es)
  {
    assert Step(s, e).checkAt == if e.Check? then s.checkAt[e.t := s.clock] else s.checkAt;
  }

  lemma StepPushes(s: State, es: seq<Event>, e: Event)
    requires Enabled(s, e) && PushesAreSteps(s, es) && s.clock < |es| && es[s.clock] == e
    ensures PushesAreSteps(Step(s, e), es)
  {
    assert Step(s, e).pushAt == if e.Push? then s.pushAt[e.t := s.clock] else s.pushAt;
  }

  lemma StepSettling(s: State, es: seq<Event>, e: Event)
    requires OneWinner(s) && Enabled(s, e) && SettlingIsSteps(s, es) && s.clock < |es| && es[s.clock] == e
    ensures SettlingIsSteps(Step(s, e), es)
  {
  }

  lemma InitTimes(s: State, es: seq<Event>)
    requires Init(s)
    ensures TimesAreSteps(s, es)
  {
  }

  lemma StepTimes(s: State, es: seq<Event>, e: Event)
    requires Inv(s) && Enabled(s, e) && TimesAreSteps(s, es) && s.clock < |es| && es[s.clock] == e
    ensures TimesAreSteps(Step(s, e), es)
  {
    hide Step, Enabled, ChecksAreSteps, PushesAreSteps, SettlingIsSteps;
    StepChecks(s, es, e);
    StepPushes(s, es, e);
    StepSettling(s, es, e);
  }

  lemma StepFrame(s: State, e: Event)
    requires Enabled(s, e)
    ensures Step(s, e).clock == s.clock + 1
    ensures Step(s, e).appenders.Keys == s.appenders.Keys
  {
  }

  lemma {:induction false} RunInv(ss: seq<State>, es: seq<Event>, n: nat)
    requires Run(ss, es) && n < |ss|
    ensures Inv(ss[n]) && TimesAreSteps(ss[n], es) && ss[n].clock == n
    ensures ss[n].appenders.Keys == ss[0].appenders.Keys
  {
    hide Inv, TimesAreSteps, Step, Enabled;
    if n == 0 {
      InitInv(ss[0]);
      InitTimes(ss[0], es);
    } else {
      RunInv(ss, es, n - 1);
      assert StepAt(ss, es, n - 1);
      StepInv(ss[n - 1], es[n - 1]);
      StepTimes(ss[n - 1], es, es[n - 1]);
      StepFrame(ss[n - 1], es[n - 1]);
    }
  }

  /** Once set, the outcome never changes, whoever settles again and whatever else runs. */
  lemma {:induction false} OutcomeIsFinal(ss: seq<State>, es: seq<Event>, i: nat, j: nat)
    requires Run(ss, es) && i <= j < |ss| && ss[i].outcome.Some?
    ensures ss[j].outcome == ss[i].outcome
    decreases j
  {
    if i < j {
      OutcomeIsFinal(ss, es, i, j - 1);
      assert StepAt(ss, es, j - 1);
    }
  }

  /** In every state of every run every watcher has run at most once, and only after settlement. */
  lemma AtMostOnceAfterSettlement(ss: seq<State>, es: seq<Event>, n: nat, w: nat)
    requires Run(ss, es) && n < |ss|
    ensures multiset(ss[n].ran)[w] <= 1
    ensures w in ss[n].ran ==> ss[n].outcome.Some?
  {
    RunInv(ss, es, n);
    assert Placed(ss[n], w);
  }

  /** Every call has returned and the future is settled. */
  ghost predicate Quiet(s: State) {
    && s.outcome.Some?
    && (forall t :: t in s.appenders ==> s.appenders[t] == Appended)
    && (forall k :: k in s.settlers ==> s.settlers[k] == Returned || s.settlers[k] == Threw)
  }

  ghost predicate MissedAt(es: seq<Event>, w: nat, check: nat, mark: nat, swap: nat, push: nat, n: nat) {
    && check < mark < swap < push < |es|
    && es[check] == Check(w) && es[mark] == Mark(n) && es[swap] == Swap(n) && es[push] == Push(w)
  }

  /** The settling step and the settler's swap both fall between the done check of `w` and its push. */
  ghost predicate Missed(es: seq<Event>, w: nat) {
    exists check, mark, swap, push, n :: MissedAt(es, w, check, mark, swap, push, n)
  }

  lemma StepKeepsTimes(s: State, e: Event, w: nat)
    requires OneWinner(s) && Enabled(s, e) && Timed(s, w)
    ensures w in s.pushAt ==> w in Step(s, e).pushAt && Step(s, e).pushAt[w] == s.pushAt[w]
    ensures s.swapAt.Some? ==> Step(s, e).swapAt == s.swapAt
  {
  }

  /** Each appender pushes at most once and there is at most one swap. */
  lemma {:induction false} StepsAreOnce(ss: seq<State>, es: seq<Event>, i: nat, m: nat, w: nat)
    requires Run(ss, es) && i < m < |ss|
    ensures es[i] == Push(w) ==> w in ss[m].pushAt && ss[m].pushAt[w] == i
    ensures es[i].Swap? ==> ss[m].swapAt == Some(i)
    decreases m
  {
    RunInv(ss, es, m - 1);
    assert StepAt(ss, es, m - 1);
    if i < m - 1 {
      StepsAreOnce(ss, es, i, m - 1, w);
      StepKeepsTimes(ss[m - 1], es[m - 1], w);
    }
  }

  /** At rest a registered watcher was called, or it was pushed after the swap. */
  lemma AtRest(s: State, w: nat)
    requires Inv(s) && Quiet(s) && w in s.appenders
    ensures multiset(s.ran)[w] == if w in s.watchers then 0 else 1
    ensures s.swapAt.Some?
    ensures w in s.watchers <==> w in s.pushAt && s.swapAt.value < s.pushAt[w]
    ensures w in s.watchers ==> w in s.checkAt && s.checkAt[w] < s.settleAt < s.swapAt.value
  {
    assert Placed(s, w) && Timed(s, w);
    assert w in s.watchers <==> multiset(s.watchers)[w] > 0;
    assert w in s.ran <==> multiset(s.ran)[w] > 0;
  }

  /** When everything has come to rest, a watcher has run exactly once unless it was missed, and a
      missed watcher never ran. */
  lemma RanOnceUnlessMissed(ss: seq<State>, es: seq<Event>, w: nat)
    requires Run(ss, es) && Quiet(ss[|es|]) && w in ss[0].appenders
    ensures multiset(ss[|es|].ran)[w] == if Missed(es, w) then 0 else 1
  {
    var s := ss[|es|];
    RunInv(ss, es, |es|);
    AtRest(s, w);
    if Missed(es, w) {
      var check, mark, swap, push, n :| MissedAt(es, w, check, mark, swap, push, n);
      StepsAreOnce(ss, es, swap, |es|, w);
      StepsAreOnce(ss, es, push, |es|, w);
    } else if w in s.watchers {
      assert MissedAt(es, w, s.checkAt[w], s.settleAt, s.swapAt.value, s.pushAt[w], s.winner.value);
    }
  }

  /** A run that comes to rest without ever calling watcher 0. */
  ghost predicate LosesWatcher(ss: seq<State>, es: seq<Event>) {
    Run(ss, es) && Quiet(ss[|es|]) && 0 in ss[0].appenders && 0 !in ss[|es|].ran
  }

  lemma Extend(ss: seq<State>, es: seq<Event>, e: Event) returns (ss': seq<State>, es': seq<Event>)
    requires Run(ss, es) && Enabled(ss[|es|], e)
    ensures Run(ss', es') && es' == es + [e] && ss'[0] == ss[0] && ss'[|es'|] == Step(ss[|es|], e)
  {
    ss', es' := ss + [Step(ss[|es|], e)], es + [e];
    forall i | 0 <= i < |es'| ensures StepAt(ss', es', i) {
      if i < |es| { assert StepAt(ss, es, i); }
    }
  }

  lemma SettleUnseen() returns (ss: seq<State>, es: seq<Event>)
    ensures Run(ss, es) && ss[0].appenders == map[0 := Checking]
    ensures var s := ss[|es|];
            && s.outcome.Some? && s.watchers == [] && s.ran == []
            && s.appenders == map[0 := Pushing] && s.settlers == map[0 := Returned]
  {
    var s0 := State(None, [], map[0 := Checking], map[0 := Marking(Value(1))], [], 0, None, 0, None, map[], map[]);
    ss, es := [s0], [];
    ss, es := Extend(ss, es, Check(0));
    ss, es := Extend(ss, es, Mark(0));
    ss, es := Extend(ss, es, Swap(0));
    ss, es := Extend(ss, es, Deliver(0));
  }

  /** Missing a watcher is possible: one appender, one settler, five steps. */
  lemma WatcherCanBeMissed()
    ensures exists ss: seq<State>, es: seq<Event> :: LosesWatcher(ss, es)
  {
    var ss, es := SettleUnseen();
    ss, es := Extend(ss, es, Push(0));
    assert LosesWatcher(ss, es);
  }
}
