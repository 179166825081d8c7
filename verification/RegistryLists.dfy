/** Which endpoint lists are in use: every manager pushes the lists of a changed answer to all managers of its
    servant, itself included, and a list pushed in waits until the next selection applies it. */
module RegistryLists {
  import opened Basics
  import opened RegistryRefresh

  /** The lists the next selection will use, since selection begins by applying what was pushed. */
  function InUse(r: Registry): (l: Lists) {
    if r.outter.Some? then r.outter.value else r.book.applied
  }

  /** The proxies have the registry's lists, and nothing else waits to be applied. */
  predicate Synced(r: Registry) {
    r.book.applied == r.book.lists && (r.outter == None || r.outter == Some(r.book.lists))
  }

  /** Selection begins with refreshReg, whose first act is to apply what was pushed. */
  lemma SelectionUses(c: Config, r: Registry, now: int, later: int)
    ensures BeforeAsking(c, r, now, later).book.applied == InUse(r) == InUse(BeforeAsking(c, r, now, later))
  {
  }

  // ----- What one event does to the lists -----

  /** The lists after an answer that was taken over. */
  ghost predicate TookOver(c: Config, r: Registry, q: Registry) {
    exists a :: q.book == Adopt(c, r.book, a) && (c.interfaceReq || a.active != [])
                && q.outter == if Pushes(c, r.book, a) then Some(q.book.lists) else r.outter
  }

  /** Nothing happens to the lists, or an answer is taken over. */
  ghost predicate Quiet(c: Config, r: Registry, q: Registry) {
    (q.book == r.book && q.outter == r.outter) || TookOver(c, r, q)
  }

  lemma FoundQuiet(c: Config, r: Registry, now: int, a: Answer)
    ensures Quiet(c, r, Found(c, r, now, a))
  {
    var q := Found(c, r, now, a);
    if a.iRet == 0 && !(a.active == [] && !c.interfaceReq) {
      assert q.book == Adopt(c, r.book, a);
    }
  }

  lemma AskQuiet(c: Config, r: Registry, now: int, later: int, sent: Sent)
    ensures Quiet(c, r, Ask(c, r, now, later, sent))
  {
    hide Found, TookOver;
    var w := r.(requestRegistry := true, requestTimeout := now + TIMEOUT_INTERVAL);
    var s := w.(queries := w.queries + [Query(now, w.failTimes)]);
    if Asks(c, r) && sent.Answered? {
      FoundQuiet(c, s, later, sent.answer);
      SameQuiet(c, r, s, Ask(c, r, now, later, sent));
    }
  }

  lemma SameQuiet(c: Config, r: Registry, s: Registry, q: Registry)
    requires s.book == r.book && s.outter == r.outter && Quiet(c, s, q)
    ensures Quiet(c, r, q)
  {
  }

  lemma RefreshQuiet(c: Config, r: Registry, now: int, later: int, sent: Sent)
    ensures Quiet(c, TakePushed(r), Refresh(c, r, now, later, sent))
  {
    hide Ask, Quiet;
    var p := BeforeAsking(c, r, now, later);
    AskQuiet(c, p, now, later, sent);
    WithdrawnQuiet(c, r, now, later, Refresh(c, r, now, later, sent));
  }

  lemma WithdrawnQuiet(c: Config, r: Registry, now: int, later: int, q: Registry)
    ensures Quiet(c, BeforeAsking(c, r, now, later), q) ==> Quiet(c, TakePushed(r), q)
    ensures Quiet(c, TakePushed(r), BeforeAsking(c, r, now, later))
  {
    var p := BeforeAsking(c, r, now, later);
    if Quiet(c, p, q) {
      SameQuiet(c, TakePushed(r), p, q);
    }
  }

  /** The state whose lists an event starts from: a refresh first applies what was pushed. */
  function Ready(r: Registry, e: Event): (p: Registry) { if e.RefreshReg? then TakePushed(r) else r }

  lemma StepQuiet(c: Config, r: Registry, e: Event)
    requires !e.UpdateOutter?
    ensures Quiet(c, Ready(r, e), Step(c, r, e))
  {
    match e
    case RefreshReg(now, later, sent) => RefreshQuiet(c, r, now, later, sent);
    case Callback(now, a) => FoundQuiet(c, r, now, a);
    case CallbackException(now) =>
  }

  /** Interface managers are never pushed to. */
  predicate Fits(c: Config, r: Registry) { c.interfaceReq ==> r.outter == None }

  lemma QuietInUse(c: Config, r: Registry, q: Registry)
    requires Fits(c, r) && Quiet(c, r, q)
    ensures Fits(c, q)
    ensures if q.book.lists == r.book.lists then q.book.applied == r.book.applied && q.outter == r.outter
            else InUse(q) == q.book.lists && Synced(q) && !SameEndpoints(q.book.lists, r.book.lists)
    ensures q.book.lists != r.book.lists && !c.interfaceReq ==> q.book.lists.active != map[]
  {
    if TookOver(c, r, q) {
      var a :| q.book == Adopt(c, r.book, a) && (c.interfaceReq || a.active != [])
               && q.outter == if Pushes(c, r.book, a) then Some(q.book.lists) else r.outter;
      ReplacedKeys(r.book.lists.active, ToSet(a.active));
    }
  }

  lemma ReplacedKeys(before: Weighted, given: Weighted)
    ensures Replaced(before, given).Keys == given.Keys
    ensures Replaced(before, given) == map[] ==> given == map[]
  {
  }

  /** An event other than a push leaves the lists alone, or the registry's new lists are in use after it. */
  lemma StepInUse(c: Config, r: Registry, e: Event)
    requires Fits(c, r) && !e.UpdateOutter?
    ensures var q := Step(c, r, e);
            Fits(c, q) && (Synced(r) ==> Synced(q))
            && (q.book.lists == r.book.lists ==> InUse(q) == InUse(r))
            && (q.book.lists != r.book.lists ==>
                  InUse(q) == q.book.lists && !SameEndpoints(q.book.lists, r.book.lists)
                  && (c.interfaceReq || q.book.lists.active != map[]))
  {
    hide Step;
    StepQuiet(c, r, e);
    QuietInUse(c, Ready(r, e), Step(c, r, e));
  }

  // ----- Whole runs -----

  ghost predicate NoPush(events: seq<Event>) {
    forall i :: 0 <= i < |events| ==> !events[i].UpdateOutter?
  }

  /** As long as nobody else pushes a list, the proxies have the lists the registry gave last, and the manager's
      own push only repeats them. */
  lemma {:induction false} StaysSynced(c: Config, r: Registry, events: seq<Event>)
    requires Fits(c, r) && Synced(r) && NoPush(events)
    ensures Synced(Exec(c, r, events))
    decreases |events|
  {
    hide Step;
    if events == [] {
    } else {
      assert !events[0].UpdateOutter?;
      StepInUse(c, r, events[0]);
      StaysSynced(c, Step(c, r, events[0]), events[1..]);
    }
  }

  lemma AppliedFollows(c: Config, known: seq<Listed>, knownInactive: seq<Listed>, clock: int, events: seq<Event>)
    requires NoPush(events)
    ensures Synced(Exec(c, Initial(c, known, knownInactive, clock), events))
  {
    StaysSynced(c, Initial(c, known, knownInactive, clock), events);
  }

  /** Some answer of the run brings other lists. */
  ghost predicate HearsChange(c: Config, r: Registry, events: seq<Event>)
    decreases |events|
  {
    events != [] && (Step(c, r, events[0]).book.lists != r.book.lists || HearsChange(c, Step(c, r, events[0]), events[1..]))
  }

  /** The lists in use after a run without pushes: the registry's, once it has named other endpoints, and until
      then what was in use before. */
  lemma {:induction false} InUseUnpushed(c: Config, r: Registry, events: seq<Event>)
    requires Fits(c, r) && NoPush(events)
    ensures var q := Exec(c, r, events);
            Fits(c, q)
            && (!HearsChange(c, r, events) ==> q.book.lists == r.book.lists && InUse(q) == InUse(r))
            && (HearsChange(c, r, events) ==> InUse(q) == q.book.lists && (c.interfaceReq || q.book.lists.active != map[]))
    decreases |events|
  {
    hide Step;
    if events == [] {
    } else {
      assert !events[0].UpdateOutter?;
      StepInUse(c, r, events[0]);
      InUseUnpushed(c, Step(c, r, events[0]), events[1..]);
    }
  }

  lemma {:induction false} ExecConcat(c: Config, r: Registry, es: seq<Event>, fs: seq<Event>)
    ensures Exec(c, r, es + fs) == Exec(c, Exec(c, r, es), fs)
    decreases |es|
  {
    hide Step;
    if es == [] {
      assert es + fs == fs;
    } else {
      assert (es + fs)[1..] == es[1..] + fs;
      ExecConcat(c, Step(c, r, es[0]), es[1..], fs);
    }
  }

  /** After the last push of a run the pushed lists stay in use until the registry names other endpoints, so the
      registry's lists are in use at the end if and only if it did or they were the ones pushed.  The active
      set in use is empty if and only if an empty one was pushed and nothing was named since. */
  lemma LastPushHolds(c: Config, r: Registry, before: seq<Event>, now: int, l: Lists, after: seq<Event>)
    requires !c.interfaceReq && NoPush(after)
    ensures var s := Exec(c, r, before);
            var heard := HearsChange(c, Push(c, s, now, l), after);
            var q := Exec(c, r, before + [UpdateOutter(now, l)] + after);
            && InUse(q) == (if heard then q.book.lists else l)
            && (InUse(q) == q.book.lists <==> heard || l == s.book.lists)
            && (InUse(q).active == map[] <==> !heard && l.active == map[])
  {
    hide Step, HearsChange;
    var s := Exec(c, r, before);
    ExecConcat(c, r, before, [UpdateOutter(now, l)]);
    ExecConcat(c, r, before + [UpdateOutter(now, l)], after);
    PushStep(c, s, now, l);
    InUseUnpushed(c, Push(c, s, now, l), after);
  }

  lemma PushStep(c: Config, s: Registry, now: int, l: Lists)
    ensures Step(c, s, UpdateOutter(now, l)) == Push(c, s, now, l) == Exec(c, s, [UpdateOutter(now, l)])
    ensures InUse(Push(c, s, now, l)) == l && Push(c, s, now, l).book == s.book
  {
    assert [UpdateOutter(now, l)][1..] == [];
  }

  // ----- Weights -----

  /** Nothing is lost when `given` is compared with `before` by its endpoints alone. */
  predicate Fresh(before: Weighted, given: Weighted) { given.Keys != before.Keys || given == before }

  /** After an answer its weights are in use if and only if it names other endpoints or repeats the weights:
      for each list by itself, and for both at once whatever was in use before. */
  lemma AnswerWeights(c: Config, r: Registry, now: int, a: Answer)
    requires Fits(c, r) && a.iRet == 0 && (a.active != [] || c.interfaceReq)
    ensures var q, l, was := Found(c, r, now, a), ToLists(a.active, a.inactive), r.book.lists;
            && (InUse(q) == l <==> if Changes(r.book, a) then Fresh(was.active, l.active) && Fresh(was.inactive, l.inactive)
                                   else InUse(r) == l)
            && (Synced(r) ==> (InUse(q).active == l.active <==> Fresh(was.active, l.active)))
            && (Synced(r) ==> (InUse(q).inactive == l.inactive <==> Fresh(was.inactive, l.inactive)))
            && q.book.staticWeight == AllStatic(a.active)
  {
  }

  /** The event brings no answer, or one with these endpoints. */
  predicate Repeats(e: Event, l: Lists) {
    match e
    case Callback(_, a) => SameEndpoints(ToLists(a.active, a.inactive), l)
    case RefreshReg(_, _, Answered(a)) => SameEndpoints(ToLists(a.active, a.inactive), l)
    case UpdateOutter(_, _) => false
    case _ => true
  }

  lemma FoundRepeats(c: Config, r: Registry, now: int, a: Answer)
    requires SameEndpoints(ToLists(a.active, a.inactive), r.book.lists)
    ensures Found(c, r, now, a).book.lists == r.book.lists
  {
  }

  lemma StepRepeats(c: Config, r: Registry, e: Event)
    requires Repeats(e, r.book.lists)
    ensures Step(c, r, e).book.lists == r.book.lists
  {
    hide Found;
    match e
    case RefreshReg(now, later, sent) =>
      var p := BeforeAsking(c, r, now, later);
      assert p.book.lists == r.book.lists;
      if sent.Answered? {
        var w := p.(requestRegistry := true, requestTimeout := now + TIMEOUT_INTERVAL);
        FoundRepeats(c, w.(queries := w.queries + [Query(now, w.failTimes)]), later, sent.answer);
      }
    case Callback(now, a) => FoundRepeats(c, r, now, a);
    case CallbackException(now) =>
  }

  /** As long as the registry names the same endpoints, no weight it gives reaches the proxies. */
  lemma {:induction false} WeightsFrozen(c: Config, r: Registry, events: seq<Event>)
    requires Fits(c, r) && forall i :: 0 <= i < |events| ==> Repeats(events[i], r.book.lists)
    ensures InUse(Exec(c, r, events)) == InUse(r)
    decreases |events|
  {
    hide Step;
    if events == [] {
    } else {
      assert Repeats(events[0], r.book.lists);
      StepRepeats(c, r, events[0]);
      StepInUse(c, r, events[0]);
      WeightsFrozen(c, Step(c, r, events[0]), events[1..]);
    }
  }

  /** An endpoint cached with weight 100 keeps it although the registry now says 1. */
  lemma IgnoredWeight()
    ensures var c := Config(false, false, false, true, true, 60000);
            var r := Exec(c, Initial(c, [Listed("e", 100, 1)], [], 0),
                          [RefreshReg(60000, 60000, Pending), Callback(60001, Answer(0, [Listed("e", 1, 1)], []))]);
            |r.queries| == 1 && r.valid && InUse(r).active == map["e" := 100] && r.book.cached.active == map["e" := 100]
  {
    var c := Config(false, false, false, true, true, 60000);
    var r := Initial(c, [Listed("e", 100, 1)], [], 0);
    var a := Answer(0, [Listed("e", 1, 1)], []);
    TwoSteps(c, r, RefreshReg(60000, 60000, Pending), Callback(60001, a));
    assert ToSet([Listed("e", 100, 1)][1..]) == map[] && ToSet([Listed("e", 1, 1)][1..]) == map[];
    assert ToSet([Listed("e", 100, 1)]) == map["e" := 100] && ToSet([Listed("e", 1, 1)]) == map["e" := 1];
  }

  // ----- The active set and the cache -----

  /** The proxies have active endpoints, and so has the list that waits. */
  predicate Populated(r: Registry) {
    r.book.applied.active != map[] && (r.outter.Some? ==> r.outter.value.active != map[])
  }

  lemma StepPopulated(c: Config, r: Registry, e: Event)
    requires !c.interfaceReq && Populated(r) && (e.UpdateOutter? ==> e.lists.active != map[])
    ensures Populated(Step(c, r, e))
  {
    hide Step;
    if e.UpdateOutter? {
      PushStep(c, r, e.now, e.lists);
    } else {
      StepQuiet(c, r, e);
      QuietInUse(c, Ready(r, e), Step(c, r, e));
    }
  }

  /** The active endpoints of a manager's proxies never run out as long as no list pushed in is empty. */
  lemma {:induction false} NeverEmptied(c: Config, r: Registry, events: seq<Event>)
    requires !c.interfaceReq && Populated(r)
    requires forall i :: 0 <= i < |events| && events[i].UpdateOutter? ==> events[i].lists.active != map[]
    ensures Populated(Exec(c, r, events))
    decreases |events|
  {
    hide Step;
    if events == [] {
    } else {
      StepPopulated(c, r, events[0]);
      NeverEmptied(c, Step(c, r, events[0]), events[1..]);
    }
  }

  /** Once the registry has named active endpoints, the manager's own list of them never becomes empty. */
  lemma {:induction false} ActiveListStays(c: Config, r: Registry, events: seq<Event>)
    requires !c.interfaceReq && r.book.lists.active != map[]
    ensures Exec(c, r, events).book.lists.active != map[]
    decreases |events|
  {
    hide Step;
    if events == [] {
    } else {
      if events[0].UpdateOutter? {
        PushStep(c, r, events[0].now, events[0].lists);
      } else {
        StepInUse(c, r, events[0]);
      }
      ActiveListStays(c, Step(c, r, events[0]), events[1..]);
    }
  }

  lemma QuietCached(c: Config, r: Registry, q: Registry)
    requires c.Caches() && r.book.cached == r.book.lists && Quiet(c, r, q)
    ensures q.book.cached == q.book.lists
    ensures r.book.lists.active != map[] ==> q.book.lists.active != map[]
  {
    if TookOver(c, r, q) {
      var a :| q.book == Adopt(c, r.book, a) && (c.interfaceReq || a.active != [])
               && q.outter == if Pushes(c, r.book, a) then Some(q.book.lists) else r.outter;
      ReplacedKeys(r.book.lists.active, ToSet(a.active));
    }
  }

  /** The cache file of the first network thread always holds the registry's last lists, which never lose all
      active endpoints; pushed lists never enter it. */
  lemma {:induction false} CacheFollows(c: Config, r: Registry, events: seq<Event>)
    requires c.Caches() && r.book.cached == r.book.lists
    ensures var b := Exec(c, r, events).book;
            b.cached == b.lists && (r.book.lists.active != map[] ==> b.lists.active != map[])
    decreases |events|
  {
    hide Step, Quiet;
    if events == [] {
    } else {
      var q := Step(c, r, events[0]);
      if events[0].UpdateOutter? {
        PushStep(c, r, events[0].now, events[0].lists);
      } else {
        StepQuiet(c, r, events[0]);
        QuietCached(c, Ready(r, events[0]), q);
      }
      CacheFollows(c, q, events[1..]);
    }
  }

  // ----- The start -----

  /** Listing `i` is the first of the endpoint. */
  ghost predicate FirstListing(s: seq<Listed>, ep: Endpoint, i: nat) {
    i < |s| && s[i].ep == ep && forall j :: 0 <= j < i ==> s[j].ep != ep
  }

  /** A set made of listings holds each listed endpoint, with the weight of its first listing. */
  lemma {:induction false} SetOfListings(s: seq<Listed>, ep: Endpoint)
    ensures ep in ToSet(s) <==> exists i: nat :: FirstListing(s, ep, i)
    ensures ep in ToSet(s) ==> exists i: nat :: FirstListing(s, ep, i) && ToSet(s)[ep] == s[i].weight
  {
    if s == [] {
    } else if s[0].ep == ep {
      assert FirstListing(s, ep, 0);
    } else {
      SetOfListings(s[1..], ep);
      if i: nat :| FirstListing(s, ep, i) {
        assert FirstListing(s[1..], ep, i - 1);
      }
      if i: nat :| FirstListing(s[1..], ep, i) && ToSet(s[1..])[ep] == s[1..][i].weight {
        LaterListing(s, ep, i);
      }
    }
  }

  lemma LaterListing(s: seq<Listed>, ep: Endpoint, i: nat)
    requires s != [] && s[0].ep != ep && FirstListing(s[1..], ep, i)
    ensures FirstListing(s, ep, i + 1) && s[i + 1] == s[1..][i]
  {
    assert forall j :: 0 < j < i + 1 ==> s[j] == s[1..][j - 1];
  }

  /** A manager starts with what its object name or the cache lists, in use at once; an interface manager whose name lists
      nothing starts with nothing, and only what the cache listed counts as cached. */
  lemma StartsWithKnown(c: Config, known: seq<Listed>, knownInactive: seq<Listed>, startedAt: int)
    ensures var r := Initial(c, known, knownInactive, startedAt);
            && InUse(r) == r.book.lists && Synced(r) && Fits(c, r)
            && r.book.lists.active == (if c.given || !c.interfaceReq then ToSet(known) else map[])
            && r.book.lists.inactive == (if !c.given && !c.interfaceReq then ToSet(knownInactive) else map[])
            && r.book.cached == (if c.given then NO_LISTS else r.book.lists)
            && (c.given ==> (r.book.staticWeight <==> AllStatic(known)))
  {
  }

  /** From the start on and over every run, the cache of a manager whose name lists nothing is its list from the registry. */
  lemma CacheFromStart(c: Config, known: seq<Listed>, knownInactive: seq<Listed>, startedAt: int, events: seq<Event>)
    requires c.Caches() && !c.given
    ensures var b := Exec(c, Initial(c, known, knownInactive, startedAt), events).book; b.cached == b.lists
  {
    StartsWithKnown(c, known, knownInactive, startedAt);
    CacheFollows(c, Initial(c, known, knownInactive, startedAt), events);
  }
}
