/** QueryEpBase with its two managers: asking the registry for endpoints, with request timeouts, failure
    back-off, answers that arrive late and endpoint lists pushed in.  A changed answer makes a manager push
    its lists to every manager of the servant, itself included; RegistryLists says what that amounts to. */
module RegistryRefresh {
  import opened Basics

  type Endpoint = string

  const TIMEOUT_INTERVAL := 5000
  const ACTIVE_EMPTY_INTERVAL := 10000
  const FAIL_INTERVAL := 2000
  const MANY_FAIL_INTERVAL := 30000
  const FAIL_TIMES_LIMIT := 3

  /** `given`: the object name carries its endpoints; `isLocator`: it is the registry itself. */
  datatype Config = Config(given: bool, isLocator: bool, interfaceReq: bool, rootServant: bool, firstNetThread: bool,
                           refreshProperty: int) {
    predicate Direct() { given && !isLocator }

    /** Whether the start takes endpoints from the name or from the cache. */
    predicate Preloads() { given || !interfaceReq }

    /** Whether changed lists are written to the cache file. */
    predicate Caches() { firstNetThread && !interfaceReq }

    /** The configured interval, never below five seconds. */
    function RefreshInterval(): (n: int) { if refreshProperty < 5000 then 5000 else refreshProperty }
  }

  /** A set of endpoints, each with the weight it came with; the source compares endpoints by type, host and
      port only, so two such sets are equal for it when their keys are. */
  type Weighted = map<Endpoint, int>

  datatype Lists = Lists(active: Weighted, inactive: Weighted)

  const NO_LISTS: Lists := Lists(map[], map[])

  predicate SameEndpoints(a: Lists, b: Lists) {
    a.active.Keys == b.active.Keys && a.inactive.Keys == b.inactive.Keys
  }

  /** A query that was made: when, and after how many failures in a row. */
  datatype Query = Query(time: int, fails: nat)

  /** The registry's last lists and weight type, the lists the proxies were last updated with, and the
      lists in the cache file. */
  datatype Book = Book(lists: Lists, staticWeight: bool, applied: Lists, cached: Lists)

  /** `outter` is a pushed pair of lists not yet applied.  `queries`, `notified` (doNotify calls) and
      `silent` (turned valid by a pushed list) are logs. */
  datatype Registry = Registry(
    valid: bool,
    requestRegistry: bool,
    requestTimeout: int,
    refreshTime: int,
    failTimes: nat,
    book: Book,
    outter: Option<Lists>,
    queries: seq<Query>,
    notified: nat,
    silent: nat)

  /** An endpoint as the registry describes it. */
  datatype Listed = Listed(ep: Endpoint, weight: int, weightType: int)

  datatype Answer = Answer(iRet: int, active: seq<Listed>, inactive: seq<Listed>)

  /** What becomes of a query at once: sent off, an exception, or (synchronous) its answer. */
  datatype Sent = Pending | Threw | Answered(answer: Answer)

  /** set::insert keeps the endpoint that is already there. */
  function ToSet(s: seq<Listed>): (r: Weighted)
    ensures r == map[] <==> s == []
  {
    if s == [] then map[]
    else
      var r := ToSet(s[1..])[s[0].ep := s[0].weight];
      assert s[0].ep in r;
      r
  }

  function ToLists(active: seq<Listed>, inactive: seq<Listed>): (r: Lists) {
    Lists(ToSet(active), ToSet(inactive))
  }

  /** Static weights are in use when every endpoint says so. */
  predicate AllStatic(s: seq<Listed>) {
    s != [] && forall i :: 0 <= i < |s| ==> s[i].weightType == 1
  }

  // ----- The operations -----

  function MakeValid(r: Registry): (q: Registry) {
    if r.valid then r else r.(valid := true, notified := r.notified + 1)
  }

  /** doEndpointsExp. */
  function Failed(r: Registry, now: int): (q: Registry) {
    var f := r.(failTimes := r.failTimes + 1, requestRegistry := false, refreshTime := now + FAIL_INTERVAL);
    if f.failTimes > FAIL_TIMES_LIMIT then MakeValid(f).(refreshTime := now + MANY_FAIL_INTERVAL) else f
  }

  /** doEndpoints. */
  function Found(c: Config, r: Registry, now: int, a: Answer): (q: Registry) {
    if a.iRet != 0 then Failed(r, now)
    else
      var f := r.(failTimes := 0, requestRegistry := false);
      if a.active == [] && !c.interfaceReq then f.(refreshTime := now + ACTIVE_EMPTY_INTERVAL)
      else MakeValid(Adopted(c, f, now, a))
  }

  /** The answer is taken over; changed lists are also pushed to every manager of the servant, and so back. */
  function Adopted(c: Config, r: Registry, now: int, a: Answer): (q: Registry) {
    var book := Adopt(c, r.book, a);
    r.(refreshTime := now + c.RefreshInterval(), book := book,
       outter := if Pushes(c, r.book, a) then Some(book.lists) else r.outter)
  }

  /** An answer with other endpoints than before. */
  predicate Changes(b: Book, a: Answer) { !SameEndpoints(ToLists(a.active, a.inactive), b.lists) }

  predicate Pushes(c: Config, b: Book, a: Answer) { !c.interfaceReq && Changes(b, a) }

  /** A list of other endpoints replaces the old one; a list of the same endpoints, whatever their weights,
      does not. */
  function Replaced(before: Weighted, given: Weighted): (r: Weighted) {
    if given.Keys == before.Keys then before else given
  }

  /** Only lists that changed are taken over and cached, and only a change updates the proxies; the weight type
      is taken over always. */
  function Adopt(c: Config, b: Book, a: Answer): (r: Book) {
    var l := Lists(Replaced(b.lists.active, ToSet(a.active)), Replaced(b.lists.inactive, ToSet(a.inactive)));
    Book(l, AllStatic(a.active), if Changes(b, a) then l else b.applied,
         if !c.Caches() then b.cached
         else Lists(if l.active.Keys != b.lists.active.Keys then l.active else b.cached.active,
                    if l.inactive.Keys != b.lists.inactive.Keys then l.inactive else b.cached.inactive))
  }

  lemma AppliedAfter(c: Config, b: Book, a: Answer)
    ensures Adopt(c, b, a).applied == if Changes(b, a) then Adopt(c, b, a).lists else b.applied
  {
  }

  /** onUpdateOutter. */
  function TakePushed(r: Registry): (q: Registry) {
    match r.outter
    case None => r
    case Some(l) => r.(valid := true, outter := None, book := r.book.(applied := l), silent := r.silent + if r.valid then 0 else 1)
  }

  predicate Sync(c: Config, r: Registry) { !r.valid && c.interfaceReq }

  predicate Due(r: Registry, now: int) {
    !r.requestRegistry && r.refreshTime <= now
  }

  /** The registry is asked, except that a servant which is not the root one never asks once valid. */
  predicate Asks(c: Config, r: Registry) { !(r.valid && !c.rootServant) }

  function Ask(c: Config, r: Registry, now: int, later: int, sent: Sent): (q: Registry) {
    var w := r.(requestRegistry := true, requestTimeout := now + TIMEOUT_INTERVAL);
    if !Asks(c, r) then w
    else
      var s := w.(queries := w.queries + [Query(now, w.failTimes)]);
      match sent
      case Pending => s
      case Threw => Failed(s, later)
      case Answered(a) => Found(c, s, later, a)
  }

  /** refreshReg up to the decision whether to ask. */
  function BeforeAsking(c: Config, r: Registry, now: int, later: int): (q: Registry) {
    var p := TakePushed(r);
    if !c.Direct() && p.requestRegistry && p.requestTimeout < now then Failed(p, later) else p
  }

  /** refreshReg; `later` is the time when a failure or a synchronous answer is handled. */
  function Refresh(c: Config, r: Registry, now: int, later: int, sent: Sent): (q: Registry) {
    var p := BeforeAsking(c, r, now, later);
    if !c.Direct() && Due(p, now) then Ask(c, p, now, later, sent) else p
  }

  /** updateEndpointsOutter. */
  function Push(c: Config, r: Registry, now: int, l: Lists): (q: Registry) {
    r.(refreshTime := now + c.RefreshInterval(), outter := Some(l))
  }

  class QueryEpBase {
    const config: Config
    const refreshInterval: int
    var valid: bool
    var requestRegistry: bool
    var requestTimeout: int
    var refreshTime: int
    var failTimes: nat
    var activeEndpoints: Weighted
    var inactiveEndpoints: Weighted
    var staticWeight: bool
    var applied: Lists
    var cached: Lists
    var outterUpdate: Option<Lists>
    var queries: seq<Query>
    var notified: nat
    var silent: nat

    ghost predicate Valid()
      reads this
    {
      refreshInterval == config.RefreshInterval()
    }

    function Abs(): Registry
      reads this
    {
      Registry(valid, requestRegistry, requestTimeout, refreshTime, failTimes, AbsBook(), outterUpdate,
               queries, notified, silent)
    }

    function AbsBook(): Book
      reads this`activeEndpoints, this`inactiveEndpoints, this`staticWeight, this`applied, this`cached
    {
      Book(Lists(activeEndpoints, inactiveEndpoints), staticWeight, applied, cached)
    }

    /** The constructor and setObjName: endpoints in the name or in the cache make it valid, and whatever
        lists are known are pushed to the managers of the servant. */
    constructor (config: Config, known: seq<Listed>, knownInactive: seq<Listed>, now: int)
      ensures Valid() && this.config == config
      ensures Abs() == Initial(config, known, knownInactive, now)
    {
      this.config := config;
      var interval := config.refreshProperty;
      if interval < 5 * 1000 {
        interval := 5 * 1000;
      }
      refreshInterval := interval;
      var active, inactive := map[], map[];
      var byWeight := false;
      if config.Preloads() {
        active := ToSet(known);
        if known != [] {
          byWeight := AllStatic(known);
        }
        if !config.given {
          inactive := ToSet(knownInactive);
          if knownInactive != [] {
            byWeight := AllStatic(knownInactive);
          }
        }
      }
      valid := config.given || active != map[];
      requestRegistry, requestTimeout, failTimes := false, 0, 0;
      activeEndpoints, inactiveEndpoints, staticWeight := active, inactive, byWeight;
      applied := Lists(active, inactive);
      cached := if config.given then NO_LISTS else Lists(active, inactive);
      queries, notified, silent := [], 0, 0;
      if (active != map[] || inactive != map[]) && !config.interfaceReq {
        refreshTime := now + interval;
        outterUpdate := Some(Lists(active, inactive));
      } else {
        refreshTime := 0;
        outterUpdate := None;
      }
    }

    method DoNotify()
      modifies this`notified
      ensures notified == old(notified) + 1
    {
      notified := notified + 1;
    }

    method BecomeValid()
      modifies this`valid, this`notified
      ensures Abs() == MakeValid(old(Abs()))
    {
      if !valid {
        valid := true;
        DoNotify();
      }
    }

    method DoEndpointsExp(now: int)
      modifies this`failTimes, this`requestRegistry, this`refreshTime, this`valid, this`notified
      ensures Abs() == Failed(old(Abs()), now)
    {
      failTimes := failTimes + 1;
      requestRegistry := false;
      refreshTime := now + FAIL_INTERVAL;
      if failTimes > FAIL_TIMES_LIMIT {
        BecomeValid();
        refreshTime := now + MANY_FAIL_INTERVAL;
      }
    }

    method DoEndpoints(a: Answer, now: int)
      requires Valid()
      modifies this
      ensures Abs() == Found(config, old(Abs()), now, a)
    {
      if a.iRet != 0 {
        DoEndpointsExp(now);
        return;
      }
      failTimes := 0;
      requestRegistry := false;
      if a.active == [] && !config.interfaceReq {
        refreshTime := now + ACTIVE_EMPTY_INTERVAL;
        return;
      }
      AdoptEndpoints(a, now);
      BecomeValid();
    }

    /** The part of doEndpoints that compares and takes over the lists. */
    method AdoptEndpoints(a: Answer, now: int)
      requires Valid()
      modifies this`activeEndpoints, this`inactiveEndpoints, this`staticWeight, this`applied, this`cached, this`refreshTime, this`outterUpdate
      ensures Abs() == Adopted(config, old(Abs()), now, a)
    {
      hide Adopt;
      AppliedAfter(config, AbsBook(), a);
      refreshTime := now + refreshInterval;
      var bNeedNotify := TakeOver(a);
      if bNeedNotify {
        NotifyEndpoints(now);
      }
    }

    /** Each list of other endpoints is taken over and cached. */
    method TakeOver(a: Answer) returns (bNeedNotify: bool)
      modifies this`activeEndpoints, this`inactiveEndpoints, this`staticWeight, this`cached
      ensures bNeedNotify <==> Changes(old(AbsBook()), a)
      ensures AbsBook() == Adopt(config, old(AbsBook()), a).(applied := old(applied))
    {
      bNeedNotify := false;
      staticWeight := SameStatic(a.active);
      var activeEps := Inserted(a.active);
      var inactiveEps := Inserted(a.inactive);
      if activeEps.Keys != activeEndpoints.Keys {
        bNeedNotify := true;
        activeEndpoints := activeEps;
        if config.firstNetThread {
          SetEndPointToCache(false);
        }
      }
      if inactiveEps.Keys != inactiveEndpoints.Keys {
        bNeedNotify := true;
        inactiveEndpoints := inactiveEps;
        if config.firstNetThread {
          SetEndPointToCache(true);
        }
      }
    }

    /** notifyEndpoints of the two managers: the proxies are updated, and EndpointManager has the lists pushed
        to every manager of the servant, which includes this one. */
    method NotifyEndpoints(now: int)
      requires Valid()
      modifies this`applied, this`refreshTime, this`outterUpdate
      ensures applied == AbsBook().lists
      ensures refreshTime == if config.interfaceReq then old(refreshTime) else now + refreshInterval
      ensures outterUpdate == if config.interfaceReq then old(outterUpdate) else Some(applied)
    {
      applied := Lists(activeEndpoints, inactiveEndpoints);
      if !config.interfaceReq {
        refreshTime, outterUpdate := now + refreshInterval, Some(applied);
      }
    }

    method SetEndPointToCache(bInactive: bool)
      modifies this`cached
      ensures cached == if config.interfaceReq then old(cached)
                        else if bInactive then old(cached).(inactive := inactiveEndpoints)
                        else old(cached).(active := activeEndpoints)
    {
      if config.interfaceReq {
        return;
      }
      if !bInactive {
        cached := cached.(active := activeEndpoints);
      } else {
        cached := cached.(inactive := inactiveEndpoints);
      }
    }

    method OnUpdateOutter()
      modifies this
      ensures Abs() == TakePushed(old(Abs()))
    {
      if outterUpdate.Some? {
        applied := outterUpdate.value;
        silent := silent + if valid then 0 else 1;
        valid := true;
        outterUpdate := None;
      }
    }

    method UpdateEndpointsOutter(now: int, l: Lists)
      requires Valid()
      modifies this`refreshTime, this`outterUpdate
      ensures Abs() == Push(config, old(Abs()), now, l)
    {
      refreshTime := now + refreshInterval;
      outterUpdate := Some(l);
    }

    method RefreshReg(now: int, later: int, sent: Sent)
      requires Valid()
      modifies this
      ensures Abs() == Refresh(config, old(Abs()), now, later, sent)
    {
      OnUpdateOutter();
      if config.Direct() {
        return;
      }
      if requestRegistry && requestTimeout < now {
        DoEndpointsExp(later);
      }
      if !requestRegistry && refreshTime <= now {
        AskRegistry(now, later, sent);
      }
    }

    /** The part of refreshReg that makes the query. */
    method AskRegistry(now: int, later: int, sent: Sent)
      requires Valid()
      modifies this
      ensures Abs() == Ask(config, old(Abs()), now, later, sent)
    {
      requestRegistry := true;
      requestTimeout := now + TIMEOUT_INTERVAL;
      if valid && !config.rootServant {
        return;
      }
      queries := queries + [Query(now, failTimes)];
      match sent
      case Pending =>
      case Threw => DoEndpointsExp(later);
      case Answered(a) => DoEndpoints(a, later);
    }
  }

  /** Inserting the answer's endpoints one by one into a set. */
  method Inserted(eps: seq<Listed>) returns (r: Weighted)
    ensures r == ToSet(eps)
  {
    r := map[];
    for i := 0 to |eps|
      invariant r == ToSet(eps[..i])
    {
      SetInsert(eps[..i], eps[i]);
      assert eps[..i + 1] == eps[..i] + [eps[i]];
      if eps[i].ep !in r {
        r := r[eps[i].ep := eps[i].weight];
      }
    }
    assert eps[..|eps|] == eps;
  }

  lemma {:induction false} SetInsert(s: seq<Listed>, e: Listed)
    ensures ToSet(s + [e]) == if e.ep in ToSet(s) then ToSet(s) else ToSet(s)[e.ep := e.weight]
  {
    if s == [] {
      assert (s + [e])[1..] == [];
    } else {
      SetInsert(s[1..], e);
      assert (s + [e])[1..] == s[1..] + [e];
    }
  }

  /** The scan for a common weight type; an empty list counts as type 0. */
  method SameStatic(eps: seq<Listed>) returns (r: bool)
    ensures r == AllStatic(eps)
  {
    var bSameWeightType, bFirstWeightType, iWeightType := true, true, 0;
    for i := 0 to |eps|
      invariant bFirstWeightType <==> i == 0
      invariant i == 0 ==> iWeightType == 0 && bSameWeightType
      invariant i > 0 ==> iWeightType == eps[0].weightType
      invariant i > 0 ==> (bSameWeightType <==> forall j :: 0 <= j < i ==> eps[j].weightType == eps[0].weightType)
    {
      if bFirstWeightType {
        bFirstWeightType, iWeightType := false, eps[i].weightType;
      } else if eps[i].weightType != iWeightType {
        bSameWeightType := false;
      }
    }
    return bSameWeightType && iWeightType == 1;
  }

  // ----- Runs -----

  /** The lists known at the start: those in the name, or those in the cache. */
  function Known(c: Config, known: seq<Listed>, knownInactive: seq<Listed>): (l: Lists) {
    if !c.Preloads() then NO_LISTS else ToLists(known, if c.given then [] else knownInactive)
  }

  /** The weight type comes from the list read last that is not empty. */
  function Initial(c: Config, known: seq<Listed>, knownInactive: seq<Listed>, now: int): (r: Registry) {
    var l := Known(c, known, knownInactive);
    var pushed := l != NO_LISTS && !c.interfaceReq;
    Registry(c.given || l.active != map[], false, 0, if pushed then now + c.RefreshInterval() else 0, 0,
             Book(l, c.Preloads() && AllStatic(if !c.given && knownInactive != [] then knownInactive else known),
                  l, if c.given then NO_LISTS else l),
             if pushed then Some(l) else None, [], 0, 0)
  }

  datatype Event =
    | RefreshReg(now: int, later: int, sent: Sent)
    | Callback(now: int, answer: Answer)
    | CallbackException(now: int)
    | UpdateOutter(now: int, lists: Lists)

  /** A monotone clock, and a synchronous query is answered or throws while an asynchronous one is
      pending or throws.  Callbacks may come at any time, late or more than once.  `UpdateOutter` is a list
      pushed by another manager or by tars_update_endpoints, which interface managers never get. */
  predicate Legal(c: Config, r: Registry, clock: int, e: Event) {
    clock <= e.now
    && (e.UpdateOutter? ==> !c.interfaceReq)
    && (e.RefreshReg? ==>
          e.now <= e.later
          && if Sync(c, BeforeAsking(c, r, e.now, e.later)) then !e.sent.Pending? else !e.sent.Answered?)
  }

  function Clock(e: Event): (t: int) { if e.RefreshReg? then e.later else e.now }

  function Step(c: Config, r: Registry, e: Event): (q: Registry) {
    match e
    case RefreshReg(now, later, sent) => Refresh(c, r, now, later, sent)
    case Callback(now, a) => Found(c, r, now, a)
    case CallbackException(now) => Failed(r, now)
    case UpdateOutter(now, l) => Push(c, r, now, l)
  }

  ghost predicate LegalRun(c: Config, r: Registry, clock: int, events: seq<Event>)
    decreases |events|
  {
    events == [] || (Legal(c, r, clock, events[0]) && LegalRun(c, Step(c, r, events[0]), Clock(events[0]), events[1..]))
  }

  function Exec(c: Config, r: Registry, events: seq<Event>): (q: Registry)
    decreases |events|
  {
    if events == [] then r else Exec(c, Step(c, r, events[0]), events[1..])
  }

  function EndClock(clock: int, events: seq<Event>): (t: int)
    decreases |events|
  {
    if events == [] then clock else EndClock(Clock(events[0]), events[1..])
  }

  /** How long after the previous query one with this many failures behind it may come. */
  function Gap(c: Config, fails: nat): (n: int)
    ensures n >= FAIL_INTERVAL
  {
    if fails <= FAIL_TIMES_LIMIT then FAIL_INTERVAL
    else if c.RefreshInterval() < MANY_FAIL_INTERVAL then c.RefreshInterval() else MANY_FAIL_INTERVAL
  }

  predicate Spaced(c: Config, qs: seq<Query>) {
    forall i :: 0 < i < |qs| ==> qs[i - 1].time + Gap(c, qs[i].fails) <= qs[i].time
  }

  function Longest(c: Config): (n: int) {
    if c.RefreshInterval() < MANY_FAIL_INTERVAL then MANY_FAIL_INTERVAL else c.RefreshInterval()
  }

  /** The state is consistent with what has happened up to `clock`. */
  predicate Inv(c: Config, r: Registry, clock: int, initially: bool) {
    && Spaced(c, r.queries)
    && (r.queries != [] ==>
          var last := r.queries[|r.queries| - 1].time;
          last <= clock && (r.requestRegistry || last + Gap(c, r.failTimes) <= r.refreshTime))
    && r.notified + r.silent + Bit(initially) == Bit(r.valid)
    && (r.valid || r.failTimes <= FAIL_TIMES_LIMIT)
    && (r.requestRegistry ==> r.requestTimeout <= clock + TIMEOUT_INTERVAL)
    && r.refreshTime <= clock + Longest(c)
  }

  lemma FailedInv(c: Config, r: Registry, clock: int, initially: bool, now: int)
    requires Inv(c, r, clock, initially) && clock <= now
    ensures Inv(c, Failed(r, now), now, initially)
  {
  }

  lemma FoundInv(c: Config, r: Registry, clock: int, initially: bool, now: int, a: Answer)
    requires Inv(c, r, clock, initially) && clock <= now
    ensures Inv(c, Found(c, r, now, a), now, initially)
  {
  }

  lemma AskInv(c: Config, r: Registry, clock: int, initially: bool, now: int, later: int, sent: Sent)
    requires Inv(c, r, clock, initially) && clock <= now <= later && Due(r, now)
    ensures Inv(c, Ask(c, r, now, later, sent), later, initially)
  {
    var w := r.(requestRegistry := true, requestTimeout := now + TIMEOUT_INTERVAL);
    var s := w.(queries := w.queries + [Query(now, w.failTimes)]);
    assert Inv(c, s, now, initially);
    match sent
    case Pending =>
    case Threw => FailedInv(c, s, now, initially, later);
    case Answered(a) => FoundInv(c, s, now, initially, later, a);
  }

  lemma TakePushedInv(c: Config, r: Registry, clock: int, initially: bool, now: int)
    requires Inv(c, r, clock, initially) && clock <= now
    ensures Inv(c, TakePushed(r), now, initially)
  {
  }

  lemma RefreshInv(c: Config, r: Registry, clock: int, initially: bool, now: int, later: int, sent: Sent)
    requires Inv(c, r, clock, initially) && clock <= now <= later
    ensures Inv(c, Refresh(c, r, now, later, sent), later, initially)
  {
    var p := TakePushed(r);
    TakePushedInv(c, r, clock, initially, now);
    if p.requestRegistry && p.requestTimeout < now {
      FailedInv(c, p, now, initially, later);
    } else if Due(p, now) {
      AskInv(c, p, now, initially, now, later, sent);
    }
  }

  lemma StepInv(c: Config, r: Registry, clock: int, initially: bool, e: Event)
    requires Inv(c, r, clock, initially) && Legal(c, r, clock, e)
    ensures Inv(c, Step(c, r, e), Clock(e), initially)
  {
    match e
    case RefreshReg(now, later, sent) => RefreshInv(c, r, clock, initially, now, later, sent);
    case Callback(now, a) => FoundInv(c, r, clock, initially, now, a);
    case CallbackException(now) => FailedInv(c, r, clock, initially, now);
    case UpdateOutter(now, l) =>
  }

  lemma {:induction false} RunInv(c: Config, r: Registry, clock: int, initially: bool, events: seq<Event>)
    requires Inv(c, r, clock, initially) && LegalRun(c, r, clock, events)
    ensures Inv(c, Exec(c, r, events), EndClock(clock, events), initially)
    decreases |events|
  {
    if events == [] {
    } else {
      StepInv(c, r, clock, initially, events[0]);
      RunInv(c, Step(c, r, events[0]), Clock(events[0]), initially, events[1..]);
    }
  }

  lemma InitialInv(c: Config, a: seq<Listed>, i: seq<Listed>, clock: int)
    requires clock >= 0
    ensures var r := Initial(c, a, i, clock); Inv(c, r, clock, r.valid)
  {
  }

  // ----- Main results -----

  /** From any start, over any run: consecutive queries are at least the failure interval apart, and
      at least the long interval (or the refresh interval, if shorter) after many failures. */
  lemma QueriesAreSpaced(c: Config, a: seq<Listed>, i: seq<Listed>, clock: int, events: seq<Event>, k: nat)
    requires clock >= 0 && LegalRun(c, Initial(c, a, i, clock), clock, events)
    requires k + 1 < |Exec(c, Initial(c, a, i, clock), events).queries|
    ensures var qs := Exec(c, Initial(c, a, i, clock), events).queries;
            qs[k + 1].time - qs[k].time >= FAIL_INTERVAL
            && (qs[k + 1].fails > FAIL_TIMES_LIMIT ==>
                  qs[k + 1].time - qs[k].time >= MANY_FAIL_INTERVAL || qs[k + 1].time - qs[k].time >= c.RefreshInterval())
  {
    InitialInv(c, a, i, clock);
    RunInv(c, Initial(c, a, i, clock), clock, Initial(c, a, i, clock).valid, events);
    var qs := Exec(c, Initial(c, a, i, clock), events).queries;
    assert qs[k + 1 - 1].time + Gap(c, qs[k + 1].fails) <= qs[k + 1].time;
  }

  /** doNotify fires at most once: exactly when an answer or repeated failure, and neither the start
      nor a pushed list, made the endpoints valid. */
  lemma NotifiedOnce(c: Config, a: seq<Listed>, i: seq<Listed>, clock: int, events: seq<Event>)
    requires clock >= 0 && LegalRun(c, Initial(c, a, i, clock), clock, events)
    ensures var r, q := Initial(c, a, i, clock), Exec(c, Initial(c, a, i, clock), events);
            q.notified <= 1 && q.silent <= 1
            && (q.notified == 1 <==> q.valid && !r.valid && q.silent == 0)
            && (!q.valid ==> q.failTimes <= FAIL_TIMES_LIMIT)
  {
    InitialInv(c, a, i, clock);
    RunInv(c, Initial(c, a, i, clock), clock, Initial(c, a, i, clock).valid, events);
  }

  lemma StepKeepsValid(c: Config, r: Registry, e: Event)
    requires r.valid
    ensures Step(c, r, e).valid
    ensures !c.rootServant ==> Step(c, r, e).queries == r.queries
  {
  }

  /** Once valid, always valid. */
  lemma {:induction false} NeverReverts(c: Config, r: Registry, events: seq<Event>)
    requires r.valid
    ensures Exec(c, r, events).valid
    decreases |events|
  {
    if events == [] {
    } else {
      StepKeepsValid(c, r, events[0]);
      NeverReverts(c, Step(c, r, events[0]), events[1..]);
    }
  }

  /** A servant that is not the root one makes no query once its endpoints are valid. */
  lemma {:induction false} NonRootStops(c: Config, r: Registry, events: seq<Event>)
    requires !c.rootServant && r.valid
    ensures Exec(c, r, events).queries == r.queries
    decreases |events|
  {
    if events == [] {
    } else {
      StepKeepsValid(c, r, events[0]);
      NonRootStops(c, Step(c, r, events[0]), events[1..]);
    }
  }

  /** A refresh after the request timeout withdraws an unanswered query. */
  lemma OverdueFails(c: Config, r: Registry, clock: int, initially: bool, e: Event)
    requires Inv(c, r, clock, initially) && !c.Direct() && r.requestRegistry
    requires e.RefreshReg? && e.now > clock + Longest(c) && e.later >= e.now
    ensures Step(c, r, e) == Failed(TakePushed(r), e.later)
  {
  }

  /** A refresh that comes late enough after a withdrawn query asks again. */
  lemma AsksAfterFailure(c: Config, r: Registry, failedAt: int, e: Event)
    requires !c.Direct() && c.rootServant && e.RefreshReg? && e.now >= failedAt + MANY_FAIL_INTERVAL
    ensures |Step(c, Failed(r, failedAt), e).queries| > |r.queries|
  {
  }

  /** So does one that comes late enough with no query open. */
  lemma AsksWhenDue(c: Config, r: Registry, clock: int, initially: bool, e: Event)
    requires Inv(c, r, clock, initially) && !c.Direct() && c.rootServant && !r.requestRegistry
    requires e.RefreshReg? && e.now > clock + Longest(c)
    ensures |Step(c, r, e).queries| > |r.queries|
  {
  }

  lemma QueriesGrow(c: Config, r: Registry, e: Event)
    ensures |Step(c, r, e).queries| >= |r.queries|
  {
  }

  /** An unanswered query blocks nothing for ever: wherever a run has got to, two refreshes that are
      far enough apart bring a root servant to ask again. */
  lemma QueriesGoOn(c: Config, r: Registry, clock: int, initially: bool, e1: Event, e2: Event)
    requires Inv(c, r, clock, initially) && !c.Direct() && c.rootServant
    requires e1.RefreshReg? && Legal(c, r, clock, e1) && e1.now > clock + Longest(c)
    requires e2.RefreshReg? && Legal(c, Step(c, r, e1), Clock(e1), e2) && e2.now >= e1.later + MANY_FAIL_INTERVAL
    ensures |Step(c, Step(c, r, e1), e2).queries| > |r.queries|
  {
    hide Step, Inv;
    if r.requestRegistry {
      OverdueFails(c, r, clock, initially, e1);
      AsksAfterFailure(c, TakePushed(r), e1.later, e2);
    } else {
      AsksWhenDue(c, r, clock, initially, e1);
      QueriesGrow(c, Step(c, r, e1), e2);
    }
  }

  lemma TwoSteps(c: Config, r: Registry, e1: Event, e2: Event)
    ensures Exec(c, r, [e1, e2]) == Step(c, Step(c, r, e1), e2)
  {
    var es := [e1, e2];
    assert es[1..] == [e2] && es[1..][1..] == [];
    assert Exec(c, Step(c, r, e1), es[1..]) == Exec(c, Step(c, Step(c, r, e1), e2), []);
  }

  /** A pushed list makes the endpoints valid without the notification that would send off the calls
      already waiting for them. */
  lemma PushedListIsSilent()
    ensures var c := Config(false, false, false, true, true, 60000);
            var r := Exec(c, Initial(c, [], [], 0), [UpdateOutter(1, NO_LISTS), RefreshReg(2, 2, Pending)]);
            r.valid && r.notified == 0 && r.silent == 1
  {
    var c := Config(false, false, false, true, true, 60000);
    TwoSteps(c, Initial(c, [], [], 0), UpdateOutter(1, NO_LISTS), RefreshReg(2, 2, Pending));
  }
}
