/** Whole runs of an ObjectProxy with all its adapters: where each message is, at every moment. */
module ObjectRuns {
  import opened Basics
  import opened TimeoutQueue
  import opened RequestLifecycle
  import opened ObjectQueue
  import LifecycleRuns

  datatype Event =
    | Invoke(call: Call, sel: Selection, connected: bool, connectBy: int, out: Outcome)
    | OnConnect(adapter: nat, turn: nat -> Turn)
    | Deadlines(now: int, shield: nat -> bool)
    | OnAdapter(index: nat, event: LifecycleRuns.Event)
    | NewAdapter(limit: nat)

  /** A message is handed in once, serial protocols make no one-way calls, adapters exist, and a
      serial peer answers in order. */
  ghost predicate Legal(o: Object, e: Event) {
    match e
    case Invoke(c, sel, _, _, _) => c.token !in o.given && InRange(o, sel) && (o.serial ==> c.kind != OneWay)
    case OnConnect(a, turn) => a < |o.adapters| && PicksInRange(o, turn)
    case OnAdapter(i, ev) => i < |o.adapters| && !ev.Submit? && LifecycleRuns.Legal(o.adapters[i], ev)
    case _ => true
  }

  ghost function Step(o: Object, e: Event): (r: Object)
    requires Sound(o) && Legal(o, e)
    ensures Sound(r)
  {
    match e
    case Invoke(c, sel, connected, connectBy, out) => Accept(o, c, sel, connected, connectBy, out)
    case OnConnect(a, turn) => Prepare(o, a, turn)
    case Deadlines(now, shield) => TimeOut(o, now, shield)
    case OnAdapter(i, ev) => o.(adapters := o.adapters[i := LifecycleRuns.Step(o.adapters[i], ev)])
    case NewAdapter(limit) => o.(adapters := o.adapters + [Init(o.serial, limit)])
  }

  // ----- Counting the places of a message -----

  function Waits(q: seq<Waiting>, t: nat): (n: nat) {
    if q == [] then 0 else Bit(q[0].call.token == t) + Waits(q[1..], t)
  }

  /** How often the message was disposed of. */
  function Times(s: seq<End>, t: nat): (n: nat) {
    if s == [] then 0 else Times(s[..|s| - 1], t) + Bit(s[|s| - 1].token == t)
  }

  /** How many adapters have accepted the message. */
  function Holders(ads: seq<State>, t: nat): (n: nat) {
    if ads == [] then 0 else Bit(t in ads[0].accepted) + Holders(ads[1..], t)
  }

  function Places(o: Object, t: nat): (n: nat) {
    Waits(o.queue, t) + Times(o.disposed, t) + Holders(o.adapters, t)
  }

  lemma {:induction false} WaitsConcat(a: seq<Waiting>, b: seq<Waiting>, t: nat)
    ensures Waits(a + b, t) == Waits(a, t) + Waits(b, t)
  {
    if a == [] {
      assert a + b == b;
    } else {
      assert (a + b)[1..] == a[1..] + b;
      WaitsConcat(a[1..], b, t);
    }
  }

  lemma WaitsSnoc(q: seq<Waiting>, w: Waiting, t: nat)
    ensures Waits(q + [w], t) == Waits(q, t) + Bit(w.call.token == t)
  {
    WaitsConcat(q, [w], t);
    assert [w][1..] == [];
  }

  lemma WaitsRemove(q: seq<Waiting>, i: nat, t: nat)
    requires i < |q|
    ensures Waits(q, t) == Waits(Remove(q, i), t) + Bit(q[i].call.token == t)
  {
    assert q == q[..i] + [q[i]] + q[i + 1..];
    WaitsSnoc(q[..i], q[i], t);
    WaitsConcat(q[..i] + [q[i]], q[i + 1..], t);
    WaitsConcat(q[..i], q[i + 1..], t);
  }

  lemma {:induction false} HoldersUpdate(ads: seq<State>, i: nat, s: State, t: nat)
    requires i < |ads|
    ensures Holders(ads[i := s], t) + Bit(t in ads[i].accepted) == Holders(ads, t) + Bit(t in s.accepted)
    decreases |ads|
  {
    if i == 0 {
      assert ads[i := s][1..] == ads[1..];
    } else {
      assert ads[i := s][1..] == ads[1..][i - 1 := s];
      HoldersUpdate(ads[1..], i - 1, s, t);
    }
  }

  lemma {:induction false} HoldersAt(ads: seq<State>, i: nat, t: nat)
    requires i < |ads|
    ensures Bit(t in ads[i].accepted) <= Holders(ads, t)
    ensures forall j :: 0 <= j < |ads| && j != i && t in ads[i].accepted && t in ads[j].accepted ==> Holders(ads, t) >= 2
    decreases |ads|
  {
    forall j | 0 <= j < |ads| && j != i && t in ads[i].accepted && t in ads[j].accepted
      ensures Holders(ads, t) >= 2
    {
      HoldersTwo(ads, i, j, t);
    }
    HoldersUpdate(ads, i, ads[i].(accepted := {}), t);
  }

  lemma HoldersTwo(ads: seq<State>, i: nat, j: nat, t: nat)
    requires i < |ads| && j < |ads| && i != j && t in ads[i].accepted && t in ads[j].accepted
    ensures Holders(ads, t) >= 2
  {
    var none := ads[i].(accepted := {});
    HoldersUpdate(ads, i, none, t);
    HoldersUpdate(ads[i := none], j, none, t);
  }

  lemma {:induction false} HolderExists(ads: seq<State>, t: nat)
    requires Holders(ads, t) > 0
    ensures exists i :: 0 <= i < |ads| && t in ads[i].accepted
    decreases |ads|
  {
    if t !in ads[0].accepted {
      HolderExists(ads[1..], t);
      var i :| 0 <= i < |ads[1..]| && t in ads[1..][i].accepted;
      assert t in ads[i + 1].accepted;
    }
  }

  // ----- The invariant -----

  ghost predicate AdaptersOk(o: Object) {
    forall i :: 0 <= i < |o.adapters| ==> Ledger(o.adapters[i]) && o.adapters[i].serial == o.serial
  }

  predicate NoOneWay(o: Object) {
    o.serial ==> forall i :: 0 <= i < |o.queue| ==> o.queue[i].call.kind != OneWay
  }

  /** Every message handed in has exactly one place; no other message has any. */
  ghost predicate OnePlaceEach(o: Object) {
    forall t :: Places(o, t) == Bit(t in o.given)
  }

  ghost predicate Inv(o: Object) {
    AdaptersOk(o) && NoOneWay(o) && OnePlaceEach(o)
  }

  lemma SubmitAccepts(s: State, e: LifecycleRuns.Event)
    requires Valid(s.q) && e.Submit? && (s.serial ==> e.kind != OneWay)
    ensures LifecycleRuns.Step(s, e).accepted == s.accepted + {e.token}
  {
    LifecycleRuns.InvokeMoves(s, e);
  }

  lemma StepSerial(s: State, e: LifecycleRuns.Event)
    requires Valid(s.q)
    ensures LifecycleRuns.Step(s, e).serial == s.serial
    ensures !e.Submit? ==> LifecycleRuns.Step(s, e).accepted == s.accepted
  {
  }

  /** Handing a message that has no place yet to an adapter gives it that one place. */
  lemma HandKeeps(o: Object, i: nat, c: Call, out: Outcome)
    requires AdaptersOk(o) && NoOneWay(o) && i < |o.adapters| && (o.serial ==> c.kind != OneWay)
    requires Holders(o.adapters, c.token) == 0
    ensures Sound(o)
    ensures var r := Hand(o, i, c, out);
            AdaptersOk(r) && NoOneWay(r) && r.given == o.given && forall t :: Places(r, t) == Places(o, t) + Bit(t == c.token)
  {
    var s := o.adapters[i];
    var ev := Submission(c, out);
    var s' := LifecycleRuns.Step(s, ev);
    HoldersAt(o.adapters, i, c.token);
    LifecycleRuns.StepLedger(s, ev);
    SubmitAccepts(s, ev);
    StepSerial(s, ev);
    forall t ensures Holders(o.adapters[i := s'], t) == Holders(o.adapters, t) + Bit(t == c.token) {
      HoldersUpdate(o.adapters, i, s', t);
    }
  }

  lemma DisposeKeeps(o: Object, c: Call, hasAdapter: bool)
    ensures forall t :: Places(Dispose(o, c, hasAdapter), t) == Places(o, t) + Bit(t == c.token)
  {
    assert Dispose(o, c, hasAdapter).disposed[..|o.disposed|] == o.disposed;
  }

  lemma EnqueueKeeps(o: Object, c: Call, deadline: int, bound: Option<nat>)
    ensures forall t :: Places(Enqueue(o, c, deadline, bound), t) == Places(o, t) + Bit(t == c.token)
  {
    forall t ensures Places(Enqueue(o, c, deadline, bound), t) == Places(o, t) + Bit(t == c.token) {
      WaitsSnoc(o.queue, Waiting(c, deadline, bound), t);
    }
  }

  /** A new message that has got one place. */
  lemma PlacedKeeps(o: Object, r: Object, t: nat)
    requires Inv(o) && t !in o.given && r.given.Keys == o.given.Keys + {t} && AdaptersOk(r) && NoOneWay(r)
    requires forall u :: Places(r, u) == Places(o, u) + Bit(u == t)
    ensures Inv(r)
  {
  }

  lemma HandNewKeeps(o: Object, i: nat, c: Call, out: Outcome)
    requires Inv(o) && Sound(o) && c.token !in o.given && i < |o.adapters| && (o.serial ==> c.kind != OneWay)
    ensures Inv(Hand(o.(given := o.given[c.token := c]), i, c, out))
  {
    var g := o.(given := o.given[c.token := c]);
    assert Places(o, c.token) == 0;
    assert forall u :: Places(g, u) == Places(o, u);
    hide Hand, Places;
    HandKeeps(g, i, c, out);
    PlacedKeeps(o, Hand(g, i, c, out), c.token);
  }

  lemma DisposeNewKeeps(o: Object, c: Call)
    requires Inv(o) && c.token !in o.given
    ensures Inv(Dispose(o.(given := o.given[c.token := c]), c, false))
  {
    var g := o.(given := o.given[c.token := c]);
    DisposeKeeps(g, c, false);
    assert forall u :: Places(g, u) == Places(o, u);
    PlacedKeeps(o, Dispose(g, c, false), c.token);
  }

  lemma EnqueueNewKeeps(o: Object, c: Call, deadline: int, bound: Option<nat>)
    requires Inv(o) && c.token !in o.given && (o.serial ==> c.kind != OneWay)
    ensures Inv(Enqueue(o.(given := o.given[c.token := c]), c, deadline, bound))
  {
    var g := o.(given := o.given[c.token := c]);
    EnqueueKeeps(g, c, deadline, bound);
    assert forall u :: Places(g, u) == Places(o, u);
    PlacedKeeps(o, Enqueue(g, c, deadline, bound), c.token);
  }

  lemma AcceptKeeps(o: Object, c: Call, sel: Selection, connected: bool, connectBy: int, out: Outcome)
    requires Inv(o) && Sound(o) && c.token !in o.given && InRange(o, sel) && (o.serial ==> c.kind != OneWay)
    ensures Inv(Accept(o, c, sel, connected, connectBy, out))
  {
    match sel
    case NotValid => EnqueueNewKeeps(o, c, c.expiry, None);
    case NoAdapter => DisposeNewKeeps(o, c);
    case Chosen(i) =>
      if connected {
        HandNewKeeps(o, i, c, out);
      } else {
        EnqueueNewKeeps(o, c, connectBy, Some(i));
      }
  }

  /** Taking the first message out leaves it without a place. */
  lemma PopLoosens(o: Object)
    requires Inv(o) && o.queue != []
    ensures var p := Pop(o); var c := o.queue[0].call;
            AdaptersOk(p) && NoOneWay(p) && (o.serial ==> c.kind != OneWay)
            && c.token in o.given && Holders(p.adapters, c.token) == 0
            && forall t :: Places(p, t) + Bit(t == c.token) == Bit(t in o.given)
  {
    var c := o.queue[0].call;
    assert Places(o, c.token) == Bit(c.token in o.given);
    assert forall t :: Places(Pop(o), t) + Bit(t == c.token) == Places(o, t);
  }

  lemma DisposePopped(o: Object)
    requires Inv(o) && o.queue != []
    ensures Inv(Dispose(Pop(o), o.queue[0].call, false))
  {
    PopLoosens(o);
    DisposeKeeps(Pop(o), o.queue[0].call, false);
  }

  lemma HandPopped(o: Object, i: nat, out: Outcome)
    requires Inv(o) && Sound(o) && o.queue != [] && i < |o.adapters|
    ensures Inv(Hand(Pop(o), i, o.queue[0].call, out))
  {
    PopLoosens(o);
    HandKeeps(Pop(o), i, o.queue[0].call, out);
  }

  lemma {:induction false} PrepareKeeps(o: Object, cur: nat, turn: nat -> Turn)
    requires Inv(o) && Sound(o) && cur < |o.adapters| && PicksInRange(o, turn)
    ensures Inv(Prepare(o, cur, turn)) && Prepare(o, cur, turn).given == o.given
    decreases |o.queue|
  {
    hide Inv;
    if o.queue != [] {
      var c := o.queue[0].call;
      match Target(o.queue[0], cur, turn)
      case None => DisposePopped(o);
      case Some(i) =>
        var out := turn(c.token).o;
        HandPopped(o, i, out);
        if !Throws(o.adapters[i], c, out) {
          PrepareKeeps(Hand(Pop(o), i, c, out), i, turn);
        }
    }
  }

  lemma {:induction false} ExpireQueueKeeps(o: Object, now: int)
    requires Inv(o)
    ensures Inv(ExpireQueue(o, now))
    decreases |o.queue|
  {
    if Late(o.queue, now) {
      var i := Earliest(o.queue);
      var p := o.(queue := Remove(o.queue, i));
      forall t ensures Places(p, t) + Bit(t == o.queue[i].call.token) == Places(o, t) {
        WaitsRemove(o.queue, i, t);
      }
      DisposeKeeps(p, o.queue[i].call, o.queue[i].bound.Some?);
      ExpireQueueKeeps(Dispose(p, o.queue[i].call, o.queue[i].bound.Some?), now);
    }
  }

  lemma {:induction false} SameHolders(ads: seq<State>, bds: seq<State>, t: nat)
    requires |ads| == |bds| && forall i :: 0 <= i < |ads| ==> ads[i].accepted == bds[i].accepted
    ensures Holders(ads, t) == Holders(bds, t)
    decreases |ads|
  {
    if ads == [] {
    } else {
      assert ads[0].accepted == bds[0].accepted;
      SameHolders(ads[1..], bds[1..], t);
    }
  }

  lemma TimeOutKeeps(o: Object, now: int, shield: nat -> bool)
    requires Inv(o) && Sound(o)
    ensures Inv(TimeOut(o, now, shield))
  {
    var ads := AllTimedOut(o.adapters, now, shield);
    var p := o.(adapters := ads);
    forall i | 0 <= i < |ads| ensures Ledger(ads[i]) && ads[i].serial == o.serial && ads[i].accepted == o.adapters[i].accepted {
      LifecycleRuns.TimeoutLedger(o.adapters[i], now, shield);
    }
    forall t ensures Places(p, t) == Places(o, t) {
      SameHolders(o.adapters, ads, t);
    }
    ExpireQueueKeeps(p, now);
  }

  lemma OnAdapterKeeps(o: Object, i: nat, ev: LifecycleRuns.Event)
    requires Inv(o) && Sound(o) && Legal(o, OnAdapter(i, ev))
    ensures Inv(Step(o, OnAdapter(i, ev)))
  {
    var s' := LifecycleRuns.Step(o.adapters[i], ev);
    LifecycleRuns.StepLedger(o.adapters[i], ev);
    StepSerial(o.adapters[i], ev);
    forall t ensures Holders(o.adapters[i := s'], t) == Holders(o.adapters, t) {
      HoldersUpdate(o.adapters, i, s', t);
    }
  }

  lemma {:induction false} HoldersSnoc(ads: seq<State>, s: State, t: nat)
    ensures Holders(ads + [s], t) == Holders(ads, t) + Bit(t in s.accepted)
    decreases |ads|
  {
    if ads == [] {
      assert (ads + [s])[1..] == [];
    } else {
      assert (ads + [s])[1..] == ads[1..] + [s];
      HoldersSnoc(ads[1..], s, t);
    }
  }

  lemma StepKeeps(o: Object, e: Event)
    requires Inv(o) && Sound(o) && Legal(o, e)
    ensures Inv(Step(o, e))
  {
    match e
    case Invoke(c, sel, connected, connectBy, out) => AcceptKeeps(o, c, sel, connected, connectBy, out);
    case OnConnect(a, turn) => PrepareKeeps(o, a, turn);
    case Deadlines(now, shield) => TimeOutKeeps(o, now, shield);
    case OnAdapter(i, ev) => OnAdapterKeeps(o, i, ev);
    case NewAdapter(limit) =>
      LifecycleRuns.InitLedger(o.serial, limit);
      forall t ensures Holders(o.adapters + [Init(o.serial, limit)], t) == Holders(o.adapters, t) {
        HoldersSnoc(o.adapters, Init(o.serial, limit), t);
      }
  }

  // ----- Runs -----

  ghost predicate LegalRun(o: Object, es: seq<Event>)
    requires Sound(o)
    decreases |es|
  {
    es != [] ==> Legal(o, es[0]) && LegalRun(Step(o, es[0]), es[1..])
  }

  ghost function Exec(o: Object, es: seq<Event>): (r: Object)
    requires Sound(o) && LegalRun(o, es)
    ensures Sound(r)
    decreases |es|
  {
    if es == [] then o else Exec(Step(o, es[0]), es[1..])
  }

  lemma {:induction false} RunKeeps(o: Object, es: seq<Event>)
    requires Inv(o) && Sound(o) && LegalRun(o, es)
    ensures Inv(Exec(o, es))
    decreases |es|
  {
    if es == [] {
    } else {
      StepKeeps(o, es[0]);
      RunKeeps(Step(o, es[0]), es[1..]);
    }
  }

  function NewObject(serial: bool): (o: Object) { Object(serial, [], [], map[], []) }

  ghost predicate InQueue(o: Object, t: nat) { exists i :: 0 <= i < |o.queue| && o.queue[i].call.token == t }

  ghost predicate AtAdapter(o: Object, i: nat, t: nat) { i < |o.adapters| && t in o.adapters[i].accepted }

  lemma {:induction false} WaitsIff(q: seq<Waiting>, t: nat)
    ensures Waits(q, t) > 0 <==> exists i :: 0 <= i < |q| && q[i].call.token == t
    decreases |q|
  {
    if q == [] {
    } else {
      WaitsIff(q[1..], t);
      if exists i :: 0 <= i < |q| && q[i].call.token == t {
        var i :| 0 <= i < |q| && q[i].call.token == t;
        assert i > 0 ==> q[1..][i - 1].call.token == t;
      }
      if Waits(q[1..], t) > 0 {
        var i :| 0 <= i < |q[1..]| && q[1..][i].call.token == t;
        assert q[i + 1].call.token == t;
      }
    }
  }

  /** In every run every message given to invoke is, at every moment, in the object queue, with
      exactly one adapter, or disposed of once, and in only one of the three. */
  lemma ExactlyOneHolder(serial: bool, es: seq<Event>, t: nat)
    requires LegalRun(NewObject(serial), es)
    ensures var o := Exec(NewObject(serial), es);
            t in o.given ==>
              && (InQueue(o, t) || Times(o.disposed, t) == 1 || exists i :: AtAdapter(o, i, t))
              && (forall i, j :: AtAdapter(o, i, t) && AtAdapter(o, j, t) ==> i == j)
              && (forall i :: AtAdapter(o, i, t) ==> !InQueue(o, t) && Times(o.disposed, t) == 0)
              && (InQueue(o, t) ==> Times(o.disposed, t) == 0)
              && Times(o.disposed, t) <= 1
  {
    RunKeeps(NewObject(serial), es);
    var o := Exec(NewObject(serial), es);
    if t in o.given {
      PlacesMean(o, t);
    }
  }

  lemma PlacesMean(o: Object, t: nat)
    requires Inv(o) && t in o.given
    ensures InQueue(o, t) || Times(o.disposed, t) == 1 || exists i :: AtAdapter(o, i, t)
    ensures forall i, j :: AtAdapter(o, i, t) && AtAdapter(o, j, t) ==> i == j
    ensures forall i :: AtAdapter(o, i, t) ==> !InQueue(o, t) && Times(o.disposed, t) == 0
    ensures InQueue(o, t) ==> Times(o.disposed, t) == 0
    ensures Times(o.disposed, t) <= 1
  {
    assert Places(o, t) == 1;
    WaitsIff(o.queue, t);
    if Holders(o.adapters, t) > 0 {
      HolderExists(o.adapters, t);
      var i :| 0 <= i < |o.adapters| && t in o.adapters[i].accepted;
      assert AtAdapter(o, i, t);
    }
    forall i | AtAdapter(o, i, t) ensures Holders(o.adapters, t) == 1 {
      HoldersAt(o.adapters, i, t);
    }
    forall i, j | AtAdapter(o, i, t) && AtAdapter(o, j, t) ensures i == j {
      if i != j {
        HoldersTwo(o.adapters, i, j, t);
      }
    }
  }

  /** A message is ended at most once overall: no two adapters finish it, no adapter finishes it
      twice, and what an adapter has finished is never disposed of. */
  lemma EndedAtMostOnce(serial: bool, es: seq<Event>, t: nat, i: nat, j: nat, k: nat, l: nat)
    requires LegalRun(NewObject(serial), es)
    requires var o := Exec(NewObject(serial), es);
             i < |o.adapters| && k < |o.adapters[i].log| && o.adapters[i].log[k].token == t
    ensures var o := Exec(NewObject(serial), es);
            && t in o.given && Times(o.disposed, t) == 0 && !InQueue(o, t)
            && (j < |o.adapters| && l < |o.adapters[j].log| && o.adapters[j].log[l].token == t ==> j == i && l == k)
  {
    RunKeeps(NewObject(serial), es);
    var o := Exec(NewObject(serial), es);
    assert AtAdapter(o, i, t);
    HoldersAt(o.adapters, i, t);
    assert Places(o, t) == Bit(t in o.given);
    PlacesMean(o, t);
    if j < |o.adapters| && l < |o.adapters[j].log| && o.adapters[j].log[l].token == t {
      assert AtAdapter(o, j, t);
    }
  }
}
