/** Why a message is where it is: over every run of an ObjectProxy, what is queued, held, timed out or disposed of
    has got there by an event that puts it there, and never before its time. */
module ObjectCauses {
  import opened Basics
  import opened TimeoutQueue
  import opened RequestLifecycle
  import opened ObjectQueue
  import opened ObjectRuns
  import opened ObjectTimeouts
  import LifecycleRuns
  import Deadlines

  // ----- Where invoke puts a message -----

  /** A new message is handed to the adapter selected for it when that is connected, disposed of when none was found,
      and otherwise waits behind the others. */
  lemma AcceptGoes(o: Object, c: Call, sel: Selection, connected: bool, connectBy: int, out: Outcome)
    requires Inv(o) && Sound(o) && InRange(o, sel) && c.token !in o.given && (o.serial ==> c.kind != OneWay)
    ensures var r := Accept(o, c, sel, connected, connectBy, out);
            && (forall a: nat :: AtAdapter(r, a, c.token) <==> sel == Chosen(a) && connected)
            && (InQueue(r, c.token) <==> sel.NotValid? || (sel.Chosen? && !connected))
            && (Times(r.disposed, c.token) == 1 <==> sel.NoAdapter?)
            && o.queue <= r.queue && o.disposed <= r.disposed
  {
    hide Inv;
    var r := Accept(o, c, sel, connected, connectBy, out);
    AcceptKeeps(o, c, sel, connected, connectBy, out);
    PlacesMean(r, c.token);
    match sel
    case NoAdapter => DisposedLast(r.disposed, c.token);
    case NotValid => assert r.queue[|o.queue|].call.token == c.token;
    case Chosen(a) =>
      if connected {
        HandGoes(o, a, c, out);
        assert AtAdapter(r, a, c.token);
      } else {
        assert r.queue[|o.queue|].call.token == c.token;
      }
  }

  lemma HandGoes(o: Object, a: nat, c: Call, out: Outcome)
    requires Inv(o) && Sound(o) && a < |o.adapters| && (o.serial ==> c.kind != OneWay)
    ensures c.token in LifecycleRuns.Step(o.adapters[a], Submission(c, out)).accepted
  {
    SubmitAccepts(o.adapters[a], Submission(c, out));
  }

  lemma DisposedLast(s: seq<End>, t: nat)
    requires s != [] && s[|s| - 1].token == t
    ensures Times(s, t) > 0
  {
  }

  // ----- Causes -----

  /** Until when a message waits in the queue. */
  function WaitsUntil(e: Event): (d: int)
    requires e.Invoke?
  {
    if e.sel.NotValid? then e.call.expiry else e.connectBy
  }

  /** The message was given so, and had to wait. */
  ghost predicate Queues(e: Event, w: Waiting) {
    && e.Invoke? && e.call == w.call && w.deadline == WaitsUntil(e)
    && match e.sel
       case NotValid => w.bound == None
       case NoAdapter => false
       case Chosen(a) => w.bound == Some(a) && !e.connected
  }

  ghost predicate QueuedFrom(past: seq<Event>, w: Waiting) {
    exists i :: 0 <= i < |past| && Queues(past[i], w)
  }

  /** The adapter holds the message of the call: with its kind and expiry and, in parallel mode, under the id it brought,
      if any. */
  ghost predicate HeldAs(x: Item, serial: bool, c: Call) {
    && x.msg.token == c.token && x.msg.kind == c.kind && x.deadline == c.expiry
    && (!serial && c.rpcId.Some? ==> x.msg.id == c.rpcId.value)
  }

  ghost predicate Gives(e: Event, serial: bool, x: Item) {
    e.Invoke? && HeldAs(x, serial, e.call)
  }

  ghost predicate GivenAs(past: seq<Event>, serial: bool, x: Item) {
    exists i :: 0 <= i < |past| && Gives(past[i], serial, x)
  }

  /** An event that looks for late messages at an adapter. */
  ghost predicate Checks(e: Event, now: int) {
    (e.Deadlines? && e.now == now) || (e.OnAdapter? && e.event.Timeouts? && e.event.now == now)
  }

  ghost predicate Expires(e: Event, d: int) { exists now :: d <= now && Checks(e, now) }

  /** The message was given, and later found late. */
  ghost predicate ExpiredAt(past: seq<Event>, t: nat) {
    exists i, j :: 0 <= i < j < |past| && past[i].Invoke? && past[i].call.token == t && Expires(past[j], past[i].call.expiry)
  }

  /** Why a message is disposed of: no adapter was found when it was given, or when it was selected for anew, or it
      waited too long. */
  ghost predicate EndsBy(e: Event, later: Event, t: nat) {
    && e.Invoke? && e.call.token == t
    && match later
       case OnConnect(_, turn) => e.sel.NotValid? && e.call.hashed && turn(t).pick == None
       case Deadlines(now, _) => !e.sel.NoAdapter? && WaitsUntil(e) <= now
       case _ => false
  }

  ghost predicate DisposedFor(past: seq<Event>, t: nat) {
    || (exists i :: 0 <= i < |past| && past[i].Invoke? && past[i].call.token == t && past[i].sel.NoAdapter?)
    || (exists i, j :: 0 <= i < j < |past| && EndsBy(past[i], past[j], t))
  }

  /** What an adapter holds is what was given, and what timed out there was late. */
  ghost predicate AdapterCaused(s: State, past: seq<Event>) {
    && (forall id :: id in s.q.data ==> GivenAs(past, s.serial, s.q.data[id]))
    && (forall i :: 0 <= i < |s.log| && s.log[i].how == TimedOut ==> ExpiredAt(past, s.log[i].token))
  }

  ghost predicate Caused(o: Object, past: seq<Event>) {
    && (forall w :: w in o.queue ==> QueuedFrom(past, w))
    && (forall d :: d in o.disposed ==> DisposedFor(past, d.token))
    && (forall s :: s in o.adapters ==> AdapterCaused(s, past))
  }

  lemma PastGrows(past: seq<Event>, e: Event)
    ensures forall w :: QueuedFrom(past, w) ==> QueuedFrom(past + [e], w)
    ensures forall t :: DisposedFor(past, t) ==> DisposedFor(past + [e], t)
    ensures forall serial, x :: GivenAs(past, serial, x) ==> GivenAs(past + [e], serial, x)
    ensures forall t :: ExpiredAt(past, t) ==> ExpiredAt(past + [e], t)
  {
    var more := past + [e];
    assert forall i :: 0 <= i < |past| ==> more[i] == past[i];
    forall t | DisposedFor(past, t) ensures DisposedFor(more, t) {
      if i :| 0 <= i < |past| && past[i].Invoke? && past[i].call.token == t && past[i].sel.NoAdapter? {
        assert more[i].Invoke?;
      } else {
        var i, j :| 0 <= i < j < |past| && EndsBy(past[i], past[j], t);
        assert EndsBy(more[i], more[j], t);
      }
    }
    forall t | ExpiredAt(past, t) ensures ExpiredAt(more, t) {
      var i, j :| 0 <= i < j < |past| && past[i].Invoke? && past[i].call.token == t && Expires(past[j], past[i].call.expiry);
      assert more[i].Invoke? && Expires(more[j], more[i].call.expiry);
    }
  }

  lemma CausedGrows(o: Object, past: seq<Event>, e: Event)
    requires Caused(o, past)
    ensures Caused(o, past + [e])
  {
    PastGrows(past, e);
    hide QueuedFrom, DisposedFor, GivenAs, ExpiredAt;
  }

  // ----- The adapters -----

  lemma SameItem(x: Item, y: Item, past: seq<Event>, serial: bool)
    requires x.msg == y.msg && x.deadline == y.deadline && GivenAs(past, serial, x)
    ensures GivenAs(past, serial, y)
  {
    var i :| 0 <= i < |past| && Gives(past[i], serial, x);
    assert Gives(past[i], serial, y);
  }

  /** What the event brings in was given by `past`. */
  ghost predicate Brings(past: seq<Event>, serial: bool, ev: LifecycleRuns.Event) {
    forall x :: Deadlines.HeldFor(x, serial, ev) ==> GivenAs(past, serial, x)
  }

  lemma CarriesCaused(s: State, r: State, past: seq<Event>, ev: LifecycleRuns.Event)
    requires AdapterCaused(s, past) && Deadlines.Carries(s, r, ev) && Brings(past, s.serial, ev)
    ensures AdapterCaused(r, past)
  {
    hide GivenAs, ExpiredAt, Deadlines.HeldFor;
    forall id | id in r.q.data ensures GivenAs(past, r.serial, r.q.data[id]) {
      if id in s.q.data && s.q.data[id].msg == r.q.data[id].msg && s.q.data[id].deadline == r.q.data[id].deadline {
        SameItem(s.q.data[id], r.q.data[id], past, s.serial);
      }
    }
    forall i | 0 <= i < |r.log| && r.log[i].how == TimedOut ensures ExpiredAt(past, r.log[i].token) {
      assert i < |s.log| && s.log[i] == r.log[i];
    }
  }

  /** The call was given. */
  ghost predicate CallGiven(past: seq<Event>, c: Call) {
    exists i :: 0 <= i < |past| && past[i].Invoke? && past[i].call == c
  }

  lemma BringsCall(past: seq<Event>, serial: bool, c: Call, out: Outcome)
    requires CallGiven(past, c)
    ensures Brings(past, serial, Submission(c, out))
  {
    var i :| 0 <= i < |past| && past[i].Invoke? && past[i].call == c;
    forall x | Deadlines.HeldFor(x, serial, Submission(c, out)) ensures GivenAs(past, serial, x) {
      assert Gives(past[i], serial, x);
    }
  }

  lemma HandCaused(s: State, past: seq<Event>, c: Call, out: Outcome)
    requires Valid(s.q) && AdapterCaused(s, past) && CallGiven(past, c) && (s.serial ==> c.kind != OneWay)
    ensures AdapterCaused(LifecycleRuns.Step(s, Submission(c, out)), past)
  {
    hide AdapterCaused, Brings, CallGiven, Deadlines.Carries, LifecycleRuns.Step;
    var ev := Submission(c, out);
    BringsCall(past, s.serial, c, out);
    Deadlines.SubmitCarries(s, ev);
    CarriesCaused(s, LifecycleRuns.Step(s, ev), past, ev);
  }

  lemma GivenThenLate(past: seq<Event>, e: Event, serial: bool, x: Item, now: int)
    requires GivenAs(past, serial, x) && Checks(e, now) && x.deadline <= now
    ensures ExpiredAt(past + [e], x.msg.token)
  {
    var i :| 0 <= i < |past| && Gives(past[i], serial, x);
    var more := past + [e];
    assert more[i].Invoke? && more[i].call.token == x.msg.token && Expires(more[|past|], more[i].call.expiry);
  }

  lemma TimeoutCaused(s: State, past: seq<Event>, e: Event, now: int, shield: nat -> bool)
    requires Valid(s.q) && AdapterCaused(s, past) && Checks(e, now)
    ensures AdapterCaused(DoTimeout(s, now, shield), past + [e])
  {
    hide GivenAs, ExpiredAt, DoTimeout, Checks;
    var r := DoTimeout(s, now, shield);
    Deadlines.TimeoutTakes(s, now, shield);
    var due := Deadlines.TimeoutFinishes(s, now, shield);
    PastGrows(past, e);
    forall i | 0 <= i < |r.log| && r.log[i].how == TimedOut ensures ExpiredAt(past + [e], r.log[i].token) {
      if i < |s.log| {
        assert s.log[i] == r.log[i];
      } else {
        var id := due[i - |s.log|];
        assert id in due;
        GivenThenLate(past, e, s.serial, s.q.data[id], now);
      }
    }
  }

  // ----- The steps -----

  lemma QueuedIsGiven(past: seq<Event>, w: Waiting)
    requires QueuedFrom(past, w)
    ensures CallGiven(past, w.call)
  {
    var i :| 0 <= i < |past| && Queues(past[i], w);
    assert past[i].Invoke? && past[i].call == w.call;
  }

  lemma NotSelected(past: seq<Event>, e: Event, w: Waiting)
    requires QueuedFrom(past, w) && Reselects(w) && e.OnConnect? && e.turn(w.call.token).pick == None
    ensures DisposedFor(past + [e], w.call.token)
  {
    var i :| 0 <= i < |past| && Queues(past[i], w);
    var more := past + [e];
    assert EndsBy(more[i], more[|past|], w.call.token);
  }

  lemma WaitedTooLong(past: seq<Event>, e: Event, w: Waiting)
    requires QueuedFrom(past, w) && e.Deadlines? && w.deadline <= e.now
    ensures DisposedFor(past + [e], w.call.token)
  {
    var i :| 0 <= i < |past| && Queues(past[i], w);
    var more := past + [e];
    assert EndsBy(more[i], more[|past|], w.call.token);
  }

  ghost predicate NoOneWays(o: Object) {
    (forall s :: s in o.adapters ==> s.serial == o.serial) && (o.serial ==> forall w :: w in o.queue ==> w.call.kind != OneWay)
  }

  lemma TurnCaused(o: Object, i: nat, out: Outcome, past: seq<Event>)
    requires Sound(o) && i < |o.adapters| && NoOneWays(o) && o.queue != [] && Caused(o, past) && QueuedFrom(past, o.queue[0])
    ensures Caused(Hand(Pop(o), i, o.queue[0].call, out), past)
  {
    hide AdapterCaused, QueuedFrom, DisposedFor, CallGiven;
    var w := o.queue[0];
    assert w in o.queue && o.adapters[i] in o.adapters;
    QueuedIsGiven(past, w);
    HandCaused(o.adapters[i], past, w.call, out);
  }

  lemma DisposeCaused(o: Object, past: seq<Event>, e: Event)
    requires o.queue != [] && Caused(o, past + [e]) && QueuedFrom(past, o.queue[0])
    requires Reselects(o.queue[0]) && e.OnConnect? && e.turn(o.queue[0].call.token).pick == None
    ensures Caused(Dispose(Pop(o), o.queue[0].call, false), past + [e])
  {
    hide AdapterCaused, QueuedFrom, DisposedFor;
    NotSelected(past, e, o.queue[0]);
  }

  lemma {:induction false} PrepareCaused(o: Object, cur: nat, turn: nat -> Turn, past: seq<Event>, e: Event)
    requires Sound(o) && cur < |o.adapters| && PicksInRange(o, turn) && NoOneWays(o)
    requires e.OnConnect? && e.turn == turn && Caused(o, past + [e]) && forall w :: w in o.queue ==> QueuedFrom(past, w)
    ensures Caused(Prepare(o, cur, turn), past + [e])
    decreases |o.queue|
  {
    hide Caused, QueuedFrom, NoOneWays;
    if o.queue == [] {
    } else {
      var w := o.queue[0];
      var c := w.call;
      assert w in o.queue;
      match Target(w, cur, turn)
      case None => DisposeCaused(o, past, e);
      case Some(i) =>
        var out := turn(c.token).o;
        var h := Hand(Pop(o), i, c, out);
        PastGrows(past, e);
        TurnCaused(o, i, out, past + [e]);
        HandKeepsMode(o, i, c, out);
        if !Throws(o.adapters[i], c, out) {
          PrepareCaused(h, i, turn, past, e);
        }
    }
  }

  lemma HandKeepsMode(o: Object, i: nat, c: Call, out: Outcome)
    requires Sound(o) && i < |o.adapters| && NoOneWays(o) && o.queue != []
    ensures NoOneWays(Hand(Pop(o), i, c, out))
  {
    StepSerial(o.adapters[i], Submission(c, out));
  }

  lemma InvokeCaused(o: Object, past: seq<Event>, e: Event)
    requires Sound(o) && Caused(o, past) && e.Invoke? && Legal(o, e) && NoOneWays(o)
    ensures Caused(Step(o, e), past + [e])
  {
    hide AdapterCaused;
    CausedGrows(o, past, e);
    var more := past + [e];
    assert more[|past|] == e;
    match e.sel
    case NotValid => assert Queues(more[|past|], Waiting(e.call, e.call.expiry, None));
    case NoAdapter =>
    case Chosen(a) =>
      if e.connected {
        assert CallGiven(more, e.call);
        HandCaused(o.adapters[a], more, e.call, e.out);
      } else {
        assert Queues(more[|past|], Waiting(e.call, e.connectBy, Some(a)));
      }
  }

  lemma AdaptersTimeOut(o: Object, past: seq<Event>, e: Event)
    requires Sound(o) && e.Deadlines? && forall s :: s in o.adapters ==> AdapterCaused(s, past)
    ensures forall s :: s in AllTimedOut(o.adapters, e.now, e.shield) ==> AdapterCaused(s, past + [e])
  {
    hide AdapterCaused;
    var ads := AllTimedOut(o.adapters, e.now, e.shield);
    forall s | s in ads ensures AdapterCaused(s, past + [e]) {
      var i :| 0 <= i < |ads| && ads[i] == s;
      assert o.adapters[i] in o.adapters;
      TimeoutCaused(o.adapters[i], past, e, e.now, e.shield);
    }
  }

  lemma QueueTimesOut(o: Object, past: seq<Event>, e: Event)
    requires e.Deadlines? && (forall w :: w in o.queue ==> QueuedFrom(past, w)) && (forall d :: d in o.disposed ==> DisposedFor(past, d.token))
    ensures forall w :: w in ExpireQueue(o, e.now).queue ==> QueuedFrom(past + [e], w)
    ensures forall d :: d in ExpireQueue(o, e.now).disposed ==> DisposedFor(past + [e], d.token)
  {
    hide QueuedFrom, DisposedFor, ExpireQueue, NotDue;
    PastGrows(past, e);
    var gone := ExpireTakes(o, e.now);
    forall w | w in ExpireQueue(o, e.now).queue ensures QueuedFrom(past + [e], w) {
      NotDueMembers(o.queue, e.now, w);
    }
    forall w | w in gone ensures DisposedFor(past + [e], w.call.token) {
      assert w in multiset(gone) && w in multiset(o.queue);
      WaitedTooLong(past, e, w);
    }
    forall d | d in ExpireQueue(o, e.now).disposed ensures DisposedFor(past + [e], d.token) {
      if d !in o.disposed {
        EndsAreGone(gone, d);
      }
    }
  }

  lemma EndsAreGone(gone: seq<Waiting>, d: End)
    requires d in Ends(gone)
    ensures exists w :: w in gone && w.call.token == d.token
  {
    var i :| 0 <= i < |gone| && Ends(gone)[i] == d;
    assert gone[i] in gone;
  }

  lemma DeadlinesCaused(o: Object, past: seq<Event>, e: Event)
    requires Sound(o) && Caused(o, past) && e.Deadlines?
    ensures Caused(Step(o, e), past + [e])
  {
    hide AdapterCaused, QueuedFrom, DisposedFor, AllTimedOut;
    AdaptersTimeOut(o, past, e);
    QueueTimesOut(o.(adapters := AllTimedOut(o.adapters, e.now, e.shield)), past, e);
  }

  lemma BringsNothing(past: seq<Event>, serial: bool, ev: LifecycleRuns.Event)
    requires !ev.Submit?
    ensures Brings(past, serial, ev)
  {
  }

  lemma OnAdapterCaused(o: Object, past: seq<Event>, e: Event)
    requires Sound(o) && Caused(o, past) && e.OnAdapter? && Legal(o, e)
    ensures Caused(Step(o, e), past + [e])
  {
    hide AdapterCaused;
    CausedGrows(o, past, e);
    var s := o.adapters[e.index];
    if e.event.Timeouts? {
      TimeoutCaused(s, past, e, e.event.now, e.event.shield);
    } else {
      Deadlines.OtherCarries(s, e.event);
      BringsNothing(past + [e], s.serial, e.event);
      CarriesCaused(s, LifecycleRuns.Step(s, e.event), past + [e], e.event);
    }
  }

  lemma StepCaused(o: Object, past: seq<Event>, e: Event)
    requires Sound(o) && Caused(o, past) && Legal(o, e) && NoOneWays(o)
    ensures Caused(Step(o, e), past + [e])
  {
    hide AdapterCaused, QueuedFrom, DisposedFor;
    match e
    case Invoke(_, _, _, _, _) => InvokeCaused(o, past, e);
    case OnConnect(a, turn) =>
      CausedGrows(o, past, e);
      PrepareCaused(o, a, turn, past, e);
    case Deadlines(_, _) => DeadlinesCaused(o, past, e);
    case OnAdapter(_, _) => OnAdapterCaused(o, past, e);
    case NewAdapter(limit) =>
      CausedGrows(o, past, e);
      InitCaused(o.serial, limit, past + [e]);
  }

  lemma InitCaused(serial: bool, limit: nat, past: seq<Event>)
    ensures AdapterCaused(Init(serial, limit), past)
  {
  }

  lemma InvMode(o: Object)
    requires Inv(o)
    ensures NoOneWays(o)
  {
  }

  lemma {:induction false} RunCaused(o: Object, past: seq<Event>, es: seq<Event>)
    requires Inv(o) && Sound(o) && LegalRun(o, es) && Caused(o, past)
    ensures Caused(Exec(o, es), past + es)
    decreases |es|
  {
    hide Inv, Caused, Step, Legal;
    if es == [] {
      assert past + es == past;
    } else {
      InvMode(o);
      StepCaused(o, past, es[0]);
      StepKeeps(o, es[0]);
      RunCaused(Step(o, es[0]), past + [es[0]], es[1..]);
      assert past + [es[0]] + es[1..] == past + es;
    }
  }

  /** In every run: each queued message waits because its selection was put off or its adapter was not connected, until
      the time set for it; each message disposed of was refused when given, found no adapter when selected for anew, or
      had waited past that time; what an adapter holds has the kind and expiry it was given with; and what timed out
      there did so after it expired. */
  lemma EverythingCaused(serial: bool, es: seq<Event>)
    requires LegalRun(NewObject(serial), es)
    ensures Caused(Exec(NewObject(serial), es), es)
  {
    hide Inv;
    ObjectTimeouts.NewObjectInv(serial);
    RunCaused(NewObject(serial), [], es);
    assert [] + es == es;
  }
}
