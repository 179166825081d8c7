/** ObjectProxy: messages wait here until endpoints are known and a connection is up, are then handed
    to one of the adapters, or are disposed of with an error.  Adapters are the states of
    RequestLifecycle, so a message can be followed from the first call to its end. */
module ObjectQueue {
  import opened Basics
  import opened TimeoutQueue
  import opened RequestLifecycle
  import LifecycleRuns

  /** Where the callback of an asynchronous call runs; a coroutine callback may belong to a parallel wait. */
  datatype Callback = NoCallback | InNetThread | InAsyncThread | InCoroutine(parallel: bool)

  datatype Call = Call(token: nat, kind: Kind, callback: Callback, rpcId: Option<Id>, expiry: int, hashed: bool)

  /** `bound`: the adapter the message already has. */
  datatype Waiting = Waiting(call: Call, deadline: int, bound: Option<nat>)

  /** How doInvokeException ends a message: the caller is woken, the callback dispatched, queued for the
      callback threads or joined to its parallel wait, the message deleted, or left to nobody. */
  datatype Fate = Woken | Dispatched | Queued | Joined | Deleted | Abandoned

  function FateOf(c: Call, hasAdapter: bool): (f: Fate) {
    match c.kind
    case OneWay => Deleted
    case SyncCall => Woken
    case AsyncCall =>
      match c.callback
      case NoCallback => Abandoned
      case InNetThread => Dispatched
      case InAsyncThread => if hasAdapter then Queued else Deleted
      case InCoroutine(parallel) => if parallel then Joined else Deleted
  }

  datatype End = End(token: nat, fate: Fate)

  /** `given` and `disposed` are history: the calls handed to invoke, and the messages ended by
      doInvokeException, in order. */
  datatype Object = Object(serial: bool, queue: seq<Waiting>, adapters: seq<State>, given: map<nat, Call>, disposed: seq<End>)

  /** What selectAdapterProxy comes back with. */
  datatype Selection = NotValid | NoAdapter | Chosen(index: nat)

  /** What the environment decides for one message of prepareConnection. */
  datatype Turn = Turn(pick: Option<nat>, o: Outcome)

  ghost predicate Sound(o: Object) {
    forall s :: s in o.adapters ==> Valid(s.q)
  }

  function Submission(c: Call, o: Outcome): (e: LifecycleRuns.Event) {
    LifecycleRuns.Submit(c.token, c.kind, c.rpcId, c.expiry, o)
  }

  // ----- The operations -----

  function Hand(o: Object, i: nat, c: Call, out: Outcome): (r: Object)
    requires Sound(o) && i < |o.adapters|
    ensures Sound(r) && |r.adapters| == |o.adapters|
  {
    o.(adapters := o.adapters[i := LifecycleRuns.Step(o.adapters[i], Submission(c, out))])
  }

  function Enqueue(o: Object, c: Call, deadline: int, bound: Option<nat>): (r: Object) {
    o.(queue := o.queue + [Waiting(c, deadline, bound)])
  }

  function Dispose(o: Object, c: Call, hasAdapter: bool): (r: Object) {
    o.(disposed := o.disposed + [End(c.token, FateOf(c, hasAdapter))])
  }

  predicate InRange(o: Object, sel: Selection) {
    sel.Chosen? ==> sel.index < |o.adapters|
  }

  /** ObjectProxy::invoke; `connectBy` is when waiting for the connection ends. */
  function Accept(o: Object, c: Call, sel: Selection, connected: bool, connectBy: int, out: Outcome): (r: Object)
    requires Sound(o) && InRange(o, sel)
    ensures Sound(r)
  {
    var g := o.(given := o.given[c.token := c]);
    match sel
    case NotValid => Enqueue(g, c, c.expiry, None)
    case NoAdapter => Dispose(g, c, false)
    case Chosen(i) => if connected then Hand(g, i, c, out) else Enqueue(g, c, connectBy, Some(i))
  }

  ghost predicate PicksInRange(o: Object, turn: nat -> Turn) {
    forall t :: turn(t).pick.Some? ==> turn(t).pick.value < |o.adapters|
  }

  function Pop(o: Object): (r: Object)
    requires o.queue != []
  {
    o.(queue := o.queue[1..])
  }

  predicate Reselects(w: Waiting) { w.bound == None && w.call.hashed }

  /** The adapter for the first message, when `cur` is the loop's: a hashed message without one is
      selected for anew, and that choice stays with the loop. */
  function Target(w: Waiting, cur: nat, turn: nat -> Turn): (r: Option<nat>) {
    if Reselects(w) then turn(w.call.token).pick else Some(cur)
  }

  /** prepareConnection: the loop ends early when selection fails, and when sendRequest throws. */
  function Prepare(o: Object, cur: nat, turn: nat -> Turn): (r: Object)
    requires Sound(o) && cur < |o.adapters| && PicksInRange(o, turn)
    ensures Sound(r)
    decreases |o.queue|
  {
    if o.queue == [] then o
    else
      var c := o.queue[0].call;
      match Target(o.queue[0], cur, turn)
      case None => Dispose(Pop(o), c, false)
      case Some(i) =>
        var out := turn(c.token).o;
        var h := Hand(Pop(o), i, c, out);
        if Throws(o.adapters[i], c, out) then h else Prepare(h, i, turn)
  }

  /** sendRequest is reached and throws. */
  predicate Throws(s: State, c: Call, out: Outcome) {
    out == Throw && s.q.send == [] && (s.serial ==> s.requestMsg == None)
  }

  /** The first of the waiting messages with the least deadline. */
  function Earliest(q: seq<Waiting>): (i: nat)
    requires q != []
    ensures i < |q| && forall j :: 0 <= j < |q| ==> q[i].deadline <= q[j].deadline
    ensures forall j :: 0 <= j < i ==> q[i].deadline < q[j].deadline
  {
    var n := |q| - 1;
    if n == 0 then 0
    else var i := Earliest(q[..n]); if q[n].deadline < q[i].deadline then n else i
  }

  predicate Late(q: seq<Waiting>, now: int) {
    q != [] && q[Earliest(q)].deadline <= now
  }

  function Remove(q: seq<Waiting>, i: nat): (r: seq<Waiting>)
    requires i < |q|
  {
    q[..i] + q[i + 1..]
  }

  /** The queue part of ObjectProxy::doTimeout. */
  function ExpireQueue(o: Object, now: int): (r: Object)
    ensures !Late(r.queue, now) && r.adapters == o.adapters
    decreases |o.queue|
  {
    if !Late(o.queue, now) then o
    else
      var i := Earliest(o.queue);
      ExpireQueue(Dispose(o.(queue := Remove(o.queue, i)), o.queue[i].call, o.queue[i].bound.Some?), now)
  }

  /** doTimeout of every adapter. */
  function AllTimedOut(ads: seq<State>, now: int, shield: nat -> bool): (r: seq<State>)
    requires forall s :: s in ads ==> Valid(s.q)
    ensures |r| == |ads| && forall s :: s in r ==> Valid(s.q)
  {
    seq(|ads|, i requires 0 <= i < |ads| => assert ads[i] in ads; RequestLifecycle.DoTimeout(ads[i], now, shield))
  }

  /** ObjectProxy::doTimeout: first the adapters, then the queue. */
  function TimeOut(o: Object, now: int, shield: nat -> bool): (r: Object)
    requires Sound(o)
    ensures Sound(r)
  {
    ExpireQueue(o.(adapters := AllTimedOut(o.adapters, now, shield)), now)
  }

  class ObjectProxy {
    const serial: bool
    var reqTimeoutQueue: seq<Waiting>
    var adapters: seq<State>
    ghost var given: map<nat, Call>
    ghost var disposed: seq<End>

    ghost function Abs(): Object
      reads this
    {
      Object(serial, reqTimeoutQueue, adapters, given, disposed)
    }

    /** doInvokeException, branch by branch. */
    method DoInvokeException(c: Call, hasAdapter: bool)
      modifies this`disposed
      ensures Abs() == Dispose(old(Abs()), c, hasAdapter)
    {
      if c.kind == OneWay {
        Ended(c, Deleted);
        return;
      }
      if c.kind == SyncCall {
        Ended(c, Woken);
        return;
      }
      if c.callback != NoCallback {
        if !c.callback.InCoroutine? {
          if c.callback == InNetThread {
            Ended(c, Dispatched);
          } else if hasAdapter {
            Ended(c, Queued);
          } else {
            Ended(c, Deleted);
          }
        } else if c.callback.parallel {
          Ended(c, Joined);
        } else {
          Ended(c, Deleted);
        }
      } else {
        Ended(c, Abandoned);
      }
    }

    method Ended(c: Call, ghost fate: Fate)
      modifies this`disposed
      ensures disposed == old(disposed) + [End(c.token, fate)]
    {
      disposed := disposed + [End(c.token, fate)];
    }

    method Invoke(c: Call, sel: Selection, connected: bool, connectBy: int, out: Outcome)
      requires Sound(Abs()) && InRange(Abs(), sel)
      modifies this
      ensures Abs() == Accept(old(Abs()), c, sel, connected, connectBy, out)
    {
      given := given[c.token := c];
      if sel.NotValid? {
        reqTimeoutQueue := reqTimeoutQueue + [Waiting(c, c.expiry, None)];
        return;
      }
      if sel.NoAdapter? {
        DoInvokeException(c, false);
        return;
      }
      if !connected {
        reqTimeoutQueue := reqTimeoutQueue + [Waiting(c, connectBy, Some(sel.index))];
        return;
      }
      adapters := adapters[sel.index := LifecycleRuns.Step(adapters[sel.index], Submission(c, out))];
    }

    method PrepareConnection(adapter: nat, turn: nat -> Turn)
      requires Sound(Abs()) && adapter < |adapters| && PicksInRange(Abs(), turn)
      modifies this
      ensures Abs() == Prepare(old(Abs()), adapter, turn)
    {
      var adapterProxy: nat := adapter;
      while reqTimeoutQueue != []
        invariant Sound(Abs()) && adapterProxy < |adapters| && PicksInRange(Abs(), turn)
        invariant Prepare(Abs(), adapterProxy, turn) == Prepare(old(Abs()), adapter, turn)
        decreases |reqTimeoutQueue|
      {
        var w := reqTimeoutQueue[0];
        reqTimeoutQueue := reqTimeoutQueue[1..];
        if w.bound == None && w.call.hashed {
          var pick := turn(w.call.token).pick;
          if pick == None {
            DoInvokeException(w.call, false);
            return;
          }
          adapterProxy := pick.value;
        }
        var out := turn(w.call.token).o;
        var before := adapters[adapterProxy];
        adapters := adapters[adapterProxy := LifecycleRuns.Step(before, Submission(w.call, out))];
        if Throws(before, w.call, out) {
          return;
        }
      }
    }

    method DoTimeout(now: int, shield: nat -> bool)
      requires Sound(Abs())
      modifies this
      ensures Abs() == TimeOut(old(Abs()), now, shield)
    {
      TimeOutAdapters(now, shield);
      while reqTimeoutQueue != [] && reqTimeoutQueue[Earliest(reqTimeoutQueue)].deadline <= now
        invariant ExpireQueue(Abs(), now) == TimeOut(old(Abs()), now, shield)
        decreases |reqTimeoutQueue|
      {
        var i := Earliest(reqTimeoutQueue);
        var w := reqTimeoutQueue[i];
        reqTimeoutQueue := reqTimeoutQueue[..i] + reqTimeoutQueue[i + 1..];
        DoInvokeException(w.call, w.bound.Some?);
      }
    }

    method TimeOutAdapters(now: int, shield: nat -> bool)
      requires Sound(Abs())
      modifies this`adapters
      ensures Abs() == old(Abs()).(adapters := AllTimedOut(old(adapters), now, shield))
    {
      ghost var before := adapters;
      for i := 0 to |adapters|
        invariant |adapters| == |before|
        invariant forall j :: 0 <= j < |before| ==>
                    adapters[j] == if j < i then AllTimedOut(before, now, shield)[j] else before[j]
      {
        assert before[i] in before;
        adapters := adapters[i := RequestLifecycle.DoTimeout(adapters[i], now, shield)];
      }
    }
  }
}
