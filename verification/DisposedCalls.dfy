/** How the messages end that never reach an adapter. */
module DisposedCalls {
  import opened Basics
  import opened TimeoutQueue
  import opened RequestLifecycle
  import opened ObjectQueue
  import opened ObjectRuns
  import LifecycleRuns

  /** The messages for which invoke selected an adapter. */
  ghost function ChosenIn(e: Event): (r: set<nat>) {
    if e.Invoke? && e.sel.Chosen? then {e.call.token} else {}
  }

  ghost function ChosenTokens(es: seq<Event>): (r: set<nat>) {
    if es == [] then {} else ChosenIn(es[0]) + ChosenTokens(es[1..])
  }

  /** Queued calls are the calls given and bound if an adapter was selected for them, and every end is the one
      doInvokeException makes for its call. */
  ghost predicate Fates(o: Object, chosen: set<nat>) {
    && chosen <= o.given.Keys
    && (forall i :: 0 <= i < |o.queue| ==> Bound(o, chosen, o.queue[i]))
    && (forall i :: 0 <= i < |o.disposed| ==> EndsWell(o, chosen, o.disposed[i]))
  }

  ghost predicate Bound(o: Object, chosen: set<nat>, w: Waiting) {
    w.call.token in o.given && o.given[w.call.token] == w.call && (w.bound.Some? <==> w.call.token in chosen)
  }

  ghost predicate EndsWell(o: Object, chosen: set<nat>, e: End) {
    e.token in o.given && e.fate == FateOf(o.given[e.token], e.token in chosen)
  }

  /** Disposing of a message that has left the queue. */
  lemma DisposeFates(o: Object, chosen: set<nat>, p: Object, w: Waiting)
    requires Fates(o, chosen) && w in o.queue && p.given == o.given && p.disposed == o.disposed
    requires forall i :: 0 <= i < |p.queue| ==> p.queue[i] in o.queue
    ensures Fates(Dispose(p, w.call, w.bound.Some?), chosen)
  {
    var i :| 0 <= i < |o.queue| && o.queue[i] == w;
    assert Bound(o, chosen, w);
    forall j | 0 <= j < |p.queue| ensures Bound(p, chosen, p.queue[j]) {
      var k :| 0 <= k < |o.queue| && o.queue[k] == p.queue[j];
    }
  }

  lemma HandFates(o: Object, chosen: set<nat>, a: nat, out: Outcome)
    requires Fates(o, chosen) && Sound(o) && o.queue != [] && a < |o.adapters|
    ensures Fates(Hand(Pop(o), a, o.queue[0].call, out), chosen)
  {
  }

  lemma {:induction false} PrepareFates(o: Object, chosen: set<nat>, cur: nat, turn: nat -> Turn)
    requires Fates(o, chosen) && Sound(o) && cur < |o.adapters| && PicksInRange(o, turn)
    ensures Fates(Prepare(o, cur, turn), chosen)
    decreases |o.queue|
  {
    hide Fates;
    if o.queue == [] {
    } else {
      var c := o.queue[0].call;
      match Target(o.queue[0], cur, turn)
      case None => DisposeFates(o, chosen, Pop(o), o.queue[0]);
      case Some(a) =>
        var out := turn(c.token).o;
        HandFates(o, chosen, a, out);
        if !Throws(o.adapters[a], c, out) {
          PrepareFates(Hand(Pop(o), a, c, out), chosen, a, turn);
        }
    }
  }

  lemma {:induction false} ExpireFates(o: Object, chosen: set<nat>, now: int)
    requires Fates(o, chosen)
    ensures Fates(ExpireQueue(o, now), chosen)
    decreases |o.queue|
  {
    hide Fates;
    if !Late(o.queue, now) {
    } else {
      var i := Earliest(o.queue);
      var p := o.(queue := Remove(o.queue, i));
      DisposeFates(o, chosen, p, o.queue[i]);
      ExpireFates(Dispose(p, o.queue[i].call, o.queue[i].bound.Some?), chosen, now);
    }
  }

  lemma GivenFates(o: Object, chosen: set<nat>, c: Call, sel: Selection)
    requires Fates(o, chosen) && c.token !in o.given
    ensures Fates(o.(given := o.given[c.token := c]), chosen + if sel.Chosen? then {c.token} else {})
  {
    var g, more := o.(given := o.given[c.token := c]), chosen + if sel.Chosen? then {c.token} else {};
    forall i | 0 <= i < |g.queue| ensures Bound(g, more, g.queue[i]) {
      assert Bound(o, chosen, o.queue[i]);
    }
    forall i | 0 <= i < |g.disposed| ensures EndsWell(g, more, g.disposed[i]) {
      assert EndsWell(o, chosen, o.disposed[i]);
    }
  }

  lemma AcceptFates(o: Object, chosen: set<nat>, e: Event)
    requires Fates(o, chosen) && Sound(o) && Legal(o, e) && e.Invoke?
    ensures Fates(Step(o, e), chosen + ChosenIn(e))
  {
    GivenFates(o, chosen, e.call, e.sel);
  }

  lemma AdaptersDoNotMatter(o: Object, chosen: set<nat>, ads: seq<State>)
    requires Fates(o, chosen)
    ensures Fates(o.(adapters := ads), chosen)
  {
    var p := o.(adapters := ads);
    forall i | 0 <= i < |p.queue| ensures Bound(p, chosen, p.queue[i]) {
      assert Bound(o, chosen, o.queue[i]);
    }
    forall i | 0 <= i < |p.disposed| ensures EndsWell(p, chosen, p.disposed[i]) {
      assert EndsWell(o, chosen, o.disposed[i]);
    }
  }

  lemma StepFates(o: Object, chosen: set<nat>, e: Event)
    requires Fates(o, chosen) && Sound(o) && Legal(o, e)
    ensures Fates(Step(o, e), chosen + ChosenIn(e))
  {
    match e
    case Invoke(_, _, _, _, _) => AcceptFates(o, chosen, e);
    case OnConnect(a, turn) =>
      hide Fates;
      PrepareFates(o, chosen, a, turn);
      assert chosen + {} == chosen;
    case Deadlines(now, shield) =>
      AdaptersDoNotMatter(o, chosen, AllTimedOut(o.adapters, now, shield));
      hide Fates;
      ExpireFates(o.(adapters := AllTimedOut(o.adapters, now, shield)), chosen, now);
      assert chosen + {} == chosen;
    case _ =>
  }

  lemma {:induction false} RunFates(o: Object, chosen: set<nat>, es: seq<Event>)
    requires Fates(o, chosen) && Sound(o) && LegalRun(o, es)
    ensures Fates(Exec(o, es), chosen + ChosenTokens(es))
    decreases |es|
  {
    hide Fates, Step, Legal;
    if es == [] {
      assert chosen + ChosenTokens(es) == chosen;
    } else {
      StepFates(o, chosen, es[0]);
      RunFates(Step(o, es[0]), chosen + ChosenIn(es[0]), es[1..]);
      assert chosen + ChosenIn(es[0]) + ChosenTokens(es[1..]) == chosen + ChosenTokens(es);
    }
  }

  /** In every run, of the messages disposed of: exactly the synchronous callers are woken, callbacks of the network
      thread are dispatched, those of a parallel wait joined to it, those of the callback threads queued if an adapter
      was selected for the call, exactly the asynchronous calls without a callback are left to nobody, and exactly those asynchronous calls are deleted
      without a word to their callback whose coroutine waits for no parallel call, or whose callback belongs to
      the callback threads and for which no adapter was selected when they were given. */
  lemma DisposedFates(serial: bool, es: seq<Event>, i: nat)
    requires LegalRun(NewObject(serial), es) && i < |Exec(NewObject(serial), es).disposed|
    ensures var o := Exec(NewObject(serial), es); var e := o.disposed[i];
            && e.token in o.given
            && var c := o.given[e.token];
               && (e.fate == Woken <==> c.kind == SyncCall)
               && (e.fate == Dispatched <==> c.kind == AsyncCall && c.callback == InNetThread)
               && (e.fate == Joined <==> c.kind == AsyncCall && c.callback == InCoroutine(true))
               && (e.fate == Queued <==> c.kind == AsyncCall && c.callback == InAsyncThread && e.token in ChosenTokens(es))
               && (e.fate == Abandoned <==> c.kind == AsyncCall && c.callback == NoCallback)
               && (e.fate == Deleted <==>
                     c.kind == OneWay
                     || (c.kind == AsyncCall
                         && (c.callback == InCoroutine(false)
                             || (c.callback == InAsyncThread && e.token !in ChosenTokens(es)))))
  {
    RunFates(NewObject(serial), {}, es);
    var o := Exec(NewObject(serial), es);
    assert {} + ChosenTokens(es) == ChosenTokens(es);
    assert EndsWell(o, ChosenTokens(es), o.disposed[i]);
  }

  // ----- Both failures happen -----

  function Async(token: nat, callback: Callback): (c: Call) { Call(token, AsyncCall, callback, None, 100, false) }

  lemma OneRefused(c: Call)
    requires c.token == 7
    ensures var es := [Invoke(c, NoAdapter, false, 50, Ok)];
            LegalRun(NewObject(false), es) && Exec(NewObject(false), es).disposed == [End(7, FateOf(c, false))]
  {
    var e := Invoke(c, NoAdapter, false, 50, Ok);
    assert [e][1..] == [];
    assert Exec(NewObject(false), [e]) == Exec(Step(NewObject(false), e), []);
  }

  /** A call whose callback belongs to the callback threads, refused for want of an adapter, is deleted and its
      callback never called; one without a callback, refused the same way, is left to nobody. */
  lemma RefusedUntold()
    ensures Exec(NewObject(false), [Invoke(Async(7, InAsyncThread), NoAdapter, false, 50, Ok)]).disposed == [End(7, Deleted)]
    ensures Exec(NewObject(false), [Invoke(Async(7, NoCallback), NoAdapter, false, 50, Ok)]).disposed == [End(7, Abandoned)]
  {
    OneRefused(Async(7, InAsyncThread));
    OneRefused(Async(7, NoCallback));
  }
}
