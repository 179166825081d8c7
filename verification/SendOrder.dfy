/** Which requests go onto the connection, in which order, and what becomes of them in the queue. */
module SendOrder {
  import opened Basics
  import opened TimeoutQueue
  import opened RequestLifecycle
  import opened LifecycleRuns

  /** The unsent messages, oldest first. */
  function Unsent(q: Queue): (ts: seq<nat>)
    requires Valid(q)
    ensures |ts| == |q.send|
  {
    seq(|q.send|, i requires 0 <= i < |q.send| => assert q.send[i] in q.send; q.data[q.send[i]].msg.token)
  }

  lemma OldestUnsent(q: Queue)
    requires Valid(q) && q.send != []
    ensures q.send[0] in q.data && Unsent(q)[0] == q.data[q.send[0]].msg.token
  {
    OldestIsHeld(q);
  }

  // ----- What is transmitted -----

  /** What doInvoke_parallel transmits. */
  function SentBy(s: State, os: seq<Outcome>): (ts: seq<nat>)
    requires Valid(s.q)
    decreases |os|
  {
    if s.q.send == [] || os == [] || (os[0] != Ok && os[0] != Full) then []
    else [Unsent(s.q)[0]] + if os[0] == Ok then SentBy(SendNext(s, Ok), os[1..]) else []
  }

  lemma SentTurn(s: State, os: seq<Outcome>, i: nat)
    requires Valid(s.q) && s.q.send != [] && i < |os|
    ensures SentBy(s, os[i..]) ==
            if os[i] == Ok then [Unsent(s.q)[0]] + SentBy(SendNext(s, Ok), os[i + 1..])
            else if os[i] == Full then [Unsent(s.q)[0]] else []
  {
    assert os[i..][1..] == os[i + 1..];
  }

  lemma FlushEnd(s: State, os: seq<Outcome>)
    requires Valid(s.q) && (s.q.send == [] || os == [])
    ensures SentBy(s, os) == [] && DoInvokeParallel(s, os) == s
  {
  }

  /** invoke gets as far as sendRequest. */
  predicate SendsAtOnce(s: State, e: Event) {
    e.Submit? && s.q.send == [] && (s.serial ==> s.requestMsg == None && e.kind != OneWay)
  }

  /** What an event transmits. */
  function SentIn(s: State, e: Event): (ts: seq<nat>)
    requires Valid(s.q)
  {
    match e
    case Submit(token, _, _, _, o) => if SendsAtOnce(s, e) && (o == Ok || o == Full) then [token] else []
    case Flush(os) =>
      if !s.serial then SentBy(s, os)
      else if os != [] && s.requestMsg == None && s.q.send != [] && (os[0] == Ok || os[0] == Full) then [Unsent(s.q)[0]]
      else []
    case _ => []
  }

  // ----- One flush -----

  /** How many requests these outcomes send, as long as there are so many: every one up to the first that is not
      sent completely, and that one too when it went into the buffer. */
  function Sends(os: seq<Outcome>): (n: nat)
    ensures n <= |os|
  {
    if os == [] then 0 else if os[0] == Ok then 1 + Sends(os[1..]) else if os[0] == Full then 1 else 0
  }

  function Min(a: nat, b: nat): (m: nat) { if a < b then a else b }

  /** The requests after those under `ids` have been sent: a one-way call is gone, any other waits for its reply. */
  function Sent(data: map<Id, Item>, ids: seq<Id>): (r: map<Id, Item>) {
    map id | id in data && !(id in ids && data[id].msg.kind == OneWay) ::
      if id in ids then data[id].(hasSend := true) else data[id]
  }

  /** The one-way calls among them, which are finished by being sent. */
  function OneWays(data: map<Id, Item>, ids: seq<Id>): (log: seq<Done>)
    requires forall id :: id in ids ==> id in data
  {
    if ids == [] then []
    else (if data[ids[0]].msg.kind == OneWay then [Done(data[ids[0]].msg.token, OneWaySent)] else []) + OneWays(data, ids[1..])
  }

  lemma SentOne(data: map<Id, Item>, id: Id)
    requires id in data
    ensures Sent(data, [id]) == if data[id].msg.kind == OneWay then data - {id} else data[id := data[id].(hasSend := true)]
    ensures OneWays(data, [id]) == if data[id].msg.kind == OneWay then [Done(data[id].msg.token, OneWaySent)] else []
  {
    assert [id][1..] == [];
  }

  /** The oldest unsent request is sent, and nothing else changes. */
  lemma SendsOldest(s: State, o: Outcome)
    requires Valid(s.q) && s.q.send != [] && (o == Ok || o == Full)
    ensures s.q.send[0] in s.q.data
    ensures var r, ids := SendNext(s, o), [s.q.send[0]];
            r.q.send == s.q.send[1..] && r.q.data == Sent(s.q.data, ids) && r.log == s.log + OneWays(s.q.data, ids)
  {
    hide Sent, OneWays;
    OldestIsHeld(s.q);
    SentOne(s.q.data, s.q.send[0]);
    hide Valid;
    WithoutFirst(s.q);
  }

  lemma WithoutFirst(q: Queue)
    requires Valid(q) && q.send != []
    ensures Without(q.send, q.send[0]) == q.send[1..]
  {
    WithoutAt(q.send, 0);
    assert q.send[..0] + q.send[1..] == q.send[1..];
  }

  lemma SentTwice(data: map<Id, Item>, x: Id, ids: seq<Id>)
    requires x !in ids
    ensures Sent(Sent(data, [x]), ids) == Sent(data, [x] + ids)
  {
  }

  lemma {:induction false} OneWaysKeep(data: map<Id, Item>, x: Id, ids: seq<Id>)
    requires x !in ids && forall id :: id in ids ==> id in data
    ensures (forall id :: id in ids ==> id in Sent(data, [x])) && OneWays(Sent(data, [x]), ids) == OneWays(data, ids)
  {
    if ids == [] {
    } else {
      OneWaysKeep(data, x, ids[1..]);
    }
  }

  lemma SendIsHeld(q: Queue)
    requires Valid(q)
    ensures forall id :: id in q.send ==> id in q.data
  {
  }

  /** `r` is `s` after its `n` oldest unsent requests were sent. */
  ghost predicate Took(s: State, r: State, n: nat)
    requires n <= |s.q.send|
  {
    && r.q.send == s.q.send[n..]
    && (forall id :: id in s.q.send[..n] ==> id in s.q.data)
    && r.q.data == Sent(s.q.data, s.q.send[..n])
    && r.log == s.log + OneWays(s.q.data, s.q.send[..n])
  }

  /** doInvoke_parallel sends the oldest requests, as many as the outcomes allow, each once; the others are left as
      they are.  Every complete send takes one request off the list. */
  lemma {:induction false} FlushTakes(s: State, os: seq<Outcome>)
    requires Valid(s.q)
    ensures var n := Min(Sends(os), |s.q.send|);
            SentBy(s, os) == Unsent(s.q)[..n] && Took(s, DoInvokeParallel(s, os), n)
    decreases |os|
  {
    hide Valid, SendNext, Unsent, Took;
    var n := Min(Sends(os), |s.q.send|);
    if n == 0 {
      if s.q.send != [] && os != [] {
        RefusedSend(s, os[0]);
      }
      TookNone(s, DoInvokeParallel(s, os));
    } else {
      TookOne(s, os[0]);
      if os[0] == Ok {
        var t := SendNext(s, Ok);
        FlushTakes(t, os[1..]);
        UnsentShift(s, t);
        TookMore(s, t, DoInvokeParallel(s, os), n);
      }
    }
  }

  lemma RefusedSend(s: State, o: Outcome)
    requires Valid(s.q) && s.q.send != [] && o != Ok && o != Full
    ensures SendNext(s, o).q == s.q && SendNext(s, o).log == s.log
  {
  }

  lemma TookNone(s: State, r: State)
    requires r.q == s.q && r.log == s.log
    ensures Took(s, r, 0)
  {
    assert s.q.send[..0] == [] && Sent(s.q.data, []) == s.q.data;
  }

  lemma TookOne(s: State, o: Outcome)
    requires Valid(s.q) && s.q.send != [] && (o == Ok || o == Full)
    ensures Took(s, SendNext(s, o), 1)
  {
    hide SendNext, Sent, OneWays;
    SendsOldest(s, o);
    assert s.q.send[..1] == [s.q.send[0]];
  }

  lemma UnsentShift(s: State, t: State)
    requires Valid(s.q) && Valid(t.q) && s.q.send != [] && Took(s, t, 1)
    ensures Unsent(t.q) == Unsent(s.q)[1..]
  {
    SendIsHeld(s.q);
    SendIsHeld(t.q);
    forall i | 0 <= i < |t.q.send| ensures Unsent(t.q)[i] == Unsent(s.q)[i + 1] {
      assert t.q.send[i] == s.q.send[i + 1] && t.q.send[i] in t.q.send;
    }
  }

  lemma TookMore(s: State, t: State, r: State, n: nat)
    requires Valid(s.q) && 0 < n <= |s.q.send| && Took(s, t, 1) && Took(t, r, n - 1)
    ensures Took(s, r, n)
  {
    hide Sent, OneWays, Valid;
    var x, ids := s.q.send[0], t.q.send[..n - 1];
    FirstIsOnce(s.q);
    SendIsHeld(s.q);
    assert s.q.send[..1] == [x];
    assert s.q.send[..n] == [x] + ids;
    assert forall id :: id in ids ==> id in s.q.send;
    SentTwice(s.q.data, x, ids);
    OneWaysKeep(s.q.data, x, ids);
    OneWaysCons(s.q.data, x, ids);
  }

  lemma FirstIsOnce(q: Queue)
    requires Valid(q) && q.send != []
    ensures q.send[0] !in q.send[1..]
  {
  }

  lemma OneWaysCons(data: map<Id, Item>, x: Id, ids: seq<Id>)
    requires x in data && forall id :: id in ids ==> id in data
    ensures OneWays(data, [x] + ids) == OneWays(data, [x]) + OneWays(data, ids)
  {
    assert ([x] + ids)[1..] == ids && [x][1..] == [];
  }

  /** doInvoke_serial sends the oldest request when none is in flight: it becomes `_requestMsg`, is held as sent, and
      goes onto the connection after what is there. */
  lemma SerialFlushTakes(s: State, o: Outcome)
    requires Valid(s.q) && s.requestMsg == None && s.q.send != [] && (o == Ok || o == Full)
    ensures var r, id := DoInvokeSerial(s, o), s.q.send[0];
            && id in s.q.data && r.requestMsg == Some(s.q.data[id].msg)
            && r.q.send == s.q.send[1..] && r.q.data == s.q.data[id := s.q.data[id].(hasSend := true)]
            && r.wire == s.wire + [Unsent(s.q)[0]] && r.log == s.log
  {
    OldestIsHeld(s.q);
  }

  // ----- The order over whole runs -----

  /** `a` was handed in before `b`. */
  ghost predicate Before(past: seq<nat>, a: nat, b: nat) {
    exists i, j :: 0 <= i < j < |past| && past[i] == a && past[j] == b
  }

  /** The tokens of the line are in the order in which they were handed in. */
  ghost predicate InOrder(line: seq<nat>, past: seq<nat>) {
    && (forall i :: 0 <= i < |line| ==> line[i] in past)
    && (forall i, j :: 0 <= i < j < |line| ==> Before(past, line[i], line[j]))
  }

  lemma BeforeSnoc(past: seq<nat>, t: nat)
    ensures forall a, b :: Before(past, a, b) ==> Before(past + [t], a, b)
    ensures forall a :: a in past ==> Before(past + [t], a, t)
  {
    var more := past + [t];
    forall a, b | Before(past, a, b) ensures Before(more, a, b) {
      var i, j :| 0 <= i < j < |past| && past[i] == a && past[j] == b;
      assert more[i] == a && more[j] == b;
    }
    forall a | a in past ensures Before(more, a, t) {
      var i :| 0 <= i < |past| && past[i] == a;
      assert more[i] == a && more[|past|] == t;
    }
  }

  lemma OrderSnoc(line: seq<nat>, past: seq<nat>, t: nat)
    requires InOrder(line, past)
    ensures InOrder(line, past + [t]) && InOrder(line + [t], past + [t])
  {
    BeforeSnoc(past, t);
  }

  lemma OrderWithout(line: seq<nat>, past: seq<nat>, k: nat)
    requires InOrder(line, past) && k < |line|
    ensures InOrder(line[..k] + line[k + 1..], past)
  {
    var r := line[..k] + line[k + 1..];
    forall i, j | 0 <= i < j < |r| ensures Before(past, r[i], r[j]) {
      var i', j' := if i < k then i else i + 1, if j < k then j else j + 1;
      assert Before(past, line[i'], line[j']);
    }
  }

  /** What has been transmitted and what waits to be, one behind the other, is in the order of `past`. */
  ghost predicate Queued(s: State, past: seq<nat>, sent: seq<nat>)
    requires Valid(s.q)
  {
    InOrder(sent + Unsent(s.q), past)
  }

  lemma UnsentWithout(q: Queue, r: Queue, k: nat)
    requires Valid(q) && Valid(r) && k < |q.send|
    requires r.send == q.send[..k] + q.send[k + 1..] && r.data == q.data - {q.send[k]}
    ensures Unsent(r) == Unsent(q)[..k] + Unsent(q)[k + 1..]
  {
    hide Valid, Unsent;
    forall i: nat | i < |r.send| ensures Unsent(r)[i] == Unsent(q)[if i < k then i else i + 1] {
      UnsentAt(r, i);
      UnsentAt(q, if i < k then i else i + 1);
    }
  }

  lemma UnsentAt(q: Queue, i: nat)
    requires Valid(q) && i < |q.send|
    ensures q.send[i] in q.data && Unsent(q)[i] == q.data[q.send[i]].msg.token
  {
    SendIsHeld(q);
  }

  lemma EraseShortens(q: Queue, id: Id)
    requires Valid(q) && id in q.data
    ensures Unsent(Erase(q, id)) == Unsent(q)
            || exists k :: 0 <= k < |q.send| && Unsent(Erase(q, id)) == Unsent(q)[..k] + Unsent(q)[k + 1..]
  {
    hide Unsent, Erase;
    var r := Erase(q, id);
    SendOnce(q);
    hide Valid;
    if id in q.send {
      var k :| 0 <= k < |q.send| && q.send[k] == id;
      WithoutAt(q.send, k);
      UnsentWithout(q, r, k);
    } else {
      WithoutAbsent(q.send, id);
      SendIsHeld(q);
      SameUnsent(q, r);
    }
  }

  lemma SendOnce(q: Queue)
    requires Valid(q)
    ensures NoDuplicates(q.send)
  {
  }

  lemma EraseQueued(s: State, r: State, id: Id, past: seq<nat>, sent: seq<nat>)
    requires Valid(s.q) && id in s.q.data && r.q == Erase(s.q, id) && Queued(s, past, sent)
    ensures Queued(r, past, sent)
  {
    hide InOrder, Unsent, Erase;
    EraseShortens(s.q, id);
    if Unsent(r.q) != Unsent(s.q) {
      var k :| 0 <= k < |s.q.send| && Unsent(r.q) == Unsent(s.q)[..k] + Unsent(s.q)[k + 1..];
      var line, n := sent + Unsent(s.q), |sent| + k;
      OrderWithout(line, past, n);
      assert line[..n] + line[n + 1..] == sent + Unsent(r.q);
    }
  }

  lemma SameUnsent(q: Queue, r: Queue)
    requires Valid(q) && Valid(r) && r.send == q.send && forall id :: id in q.send ==> id in r.data && id in q.data && r.data[id].msg == q.data[id].msg
    ensures Unsent(r) == Unsent(q)
  {
    forall i | 0 <= i < |q.send| ensures Unsent(r)[i] == Unsent(q)[i] {
      assert q.send[i] in q.send;
    }
  }

  lemma {:induction false} TimeoutQueued(s: State, now: int, shield: nat -> bool, past: seq<nat>, sent: seq<nat>)
    requires Valid(s.q) && Queued(s, past, sent)
    ensures Queued(DoTimeout(s, now, shield), past, sent)
    decreases |s.q.data|
  {
    hide Queued;
    if !Expired(s.q, now) {
    } else {
      var id := s.q.time[0];
      FirstIsHeld(s.q);
      ExpireShrinks(s, id);
      var t := Expire(s, id, shield(s.q.data[id].msg.token));
      EraseQueued(s, t, id, past, sent);
      TimeoutQueued(t, now, shield, past, sent);
    }
  }

  lemma ReplyQueued(s: State, e: Event, past: seq<nat>, sent: seq<nat>)
    requires Valid(s.q) && e.Reply? && Queued(s, past, sent)
    ensures Queued(Step(s, e), past, sent)
  {
    hide Erase, Queued;
    var r := Step(s, e);
    if r.q == s.q {
      Unmoved(s, r, past, sent);
    } else if s.serial {
      EraseQueued(s, r, s.requestMsg.value.id, past, sent);
    } else {
      EraseQueued(s, r, e.id, past, sent);
    }
  }

  lemma Unmoved(s: State, r: State, past: seq<nat>, sent: seq<nat>)
    requires Valid(s.q) && r.q == s.q && Queued(s, past, sent)
    ensures Queued(r, past, sent)
  {
  }

  lemma ParallelFlushQueued(s: State, os: seq<Outcome>, past: seq<nat>, sent: seq<nat>)
    requires Valid(s.q) && Queued(s, past, sent)
    ensures Queued(DoInvokeParallel(s, os), past, sent + SentBy(s, os))
  {
    hide InOrder, SentBy, Took, Sends, DoInvokeParallel, Unsent, Valid;
    FlushTakes(s, os);
    var n := Min(Sends(os), |s.q.send|);
    RestUnsent(s, DoInvokeParallel(s, os), n);
    CutLine(sent, Unsent(s.q), n);
  }

  lemma CutLine(a: seq<nat>, b: seq<nat>, n: nat)
    requires n <= |b|
    ensures a + b[..n] + b[n..] == a + b
  {
  }

  lemma RestUnsent(s: State, r: State, n: nat)
    requires Valid(s.q) && Valid(r.q) && n <= |s.q.send| && Took(s, r, n)
    ensures Unsent(r.q) == Unsent(s.q)[n..]
  {
    SendIsHeld(s.q);
    SendIsHeld(r.q);
    forall i | 0 <= i < |r.q.send| ensures Unsent(r.q)[i] == Unsent(s.q)[n + i] {
      assert r.q.send[i] == s.q.send[n + i] && r.q.send[i] in r.q.send;
    }
  }

  lemma SerialFlushQueued(s: State, o: Outcome, past: seq<nat>, sent: seq<nat>)
    requires Valid(s.q) && s.serial && Queued(s, past, sent)
    ensures Queued(DoInvokeSerial(s, o), past, sent + SentIn(s, Flush([o])))
  {
    hide Queued, Erase, MarkSent;
    var r := DoInvokeSerial(s, o);
    assert sent + [] == sent;
    if r.q == s.q {
      Unmoved(s, r, past, sent);
      assert SentIn(s, Flush([o])) == [];
    } else if o == Error {
      OldestIsHeld(s.q);
      EraseQueued(s, r, s.q.send[0], past, sent);
    } else {
      MarkQueued(s, r, past, sent);
    }
  }

  lemma MarkQueued(s: State, r: State, past: seq<nat>, sent: seq<nat>)
    requires Valid(s.q) && s.q.send != [] && r.q == MarkSent(s.q) && Queued(s, past, sent)
    ensures Queued(r, past, sent + [Unsent(s.q)[0]])
  {
    hide InOrder;
    var t := r.q;
    SendIsHeld(s.q);
    forall i | 0 <= i < |t.send| ensures Unsent(t)[i] == Unsent(s.q)[i + 1] {
      assert t.send[i] == s.q.send[i + 1] && t.send[i] in t.send;
    }
    assert sent + [Unsent(s.q)[0]] + Unsent(t) == sent + Unsent(s.q);
  }

  /** Nothing already held has the id of what is pushed, so the unsent messages stay what they are. */
  lemma PushQueued(s: State, t: State, r: State, msg: Message, deadline: int, hasSend: bool, past: seq<nat>, sent: seq<nat>)
    requires Valid(s.q) && Valid(t.q) && t.q.data == s.q.data && t.q.send == s.q.send && Queued(s, past, sent)
    requires r.q == PushOrFail(t, msg, deadline, hasSend).q
    ensures Queued(r, past + [msg.token], sent)
    ensures hasSend ==> Unsent(r.q) == Unsent(s.q)
  {
    hide InOrder, Before, Push, PushOrFail;
    PushedUnsent(s.q, t, msg, deadline, hasSend);
    OrderSnoc(sent + Unsent(s.q), past, msg.token);
    assert sent + (Unsent(s.q) + [msg.token]) == sent + Unsent(s.q) + [msg.token];
  }

  lemma PushedUnsent(q: Queue, t: State, msg: Message, deadline: int, hasSend: bool)
    requires Valid(q) && Valid(t.q) && t.q.data == q.data && t.q.send == q.send
    ensures var r := PushOrFail(t, msg, deadline, hasSend).q;
            Unsent(r) == if hasSend || msg.id in q.data then Unsent(q) else Unsent(q) + [msg.token]
  {
    hide Valid, Push, Unsent;
    var r := PushOrFail(t, msg, deadline, hasSend).q;
    SendIsHeld(q);
    if hasSend || msg.id in q.data {
      SameUnsent(q, r);
    } else {
      UnsentGrows(q, r, msg.id);
    }
  }

  lemma UnsentGrows(q: Queue, r: Queue, id: Id)
    requires Valid(q) && Valid(r) && id !in q.data && id in r.data
    requires r.send == q.send + [id] && r.data == q.data[id := r.data[id]]
    ensures Unsent(r) == Unsent(q) + [r.data[id].msg.token]
  {
    SendIsHeld(q);
    hide Valid;
    forall i | 0 <= i < |q.send| ensures Unsent(r)[i] == Unsent(q)[i] {
      assert q.send[i] in q.send;
    }
  }

  /** A message whose turn it is goes onto the connection at once, which only happens when nobody waits. */
  lemma SubmitQueued(s: State, e: Event, past: seq<nat>, sent: seq<nat>)
    requires Valid(s.q) && e.Submit? && (s.serial ==> e.kind != OneWay) && Queued(s, past, sent)
    ensures Queued(Step(s, e), past + [e.token], sent + SentIn(s, e))
  {
    hide Queued, PushOrFail;
    assert sent + [] == sent;
    var u := Admit(s, e);
    if |s.q.send| > s.limit {
      LaterQueued(s, Step(s, e), past, sent, e.token);
    } else if s.serial {
      assert Step(s, e) == InvokeSerial(u, e.token, e.kind, e.deadline, e.o);
      SerialSubmitQueued(s, u, e, past, sent);
    } else {
      var msg := Message(e.token, e.kind, if e.rpcId == None then u.q.uniq else e.rpcId.value);
      assert Step(s, e) == InvokeParallel(u, msg, e.deadline, e.o);
      ParallelSubmitQueued(s, u, e, msg, past, sent);
    }
  }

  lemma LaterQueued(s: State, r: State, past: seq<nat>, sent: seq<nat>, t: nat)
    requires Valid(s.q) && Valid(r.q) && r.q.data == s.q.data && r.q.send == s.q.send && Queued(s, past, sent)
    ensures Queued(r, past + [t], sent)
  {
    SameUnsent(s.q, r.q);
    OrderSnoc(sent + Unsent(s.q), past, t);
  }

  /** It was sent, and is held as sent or gone. */
  lemma SentQueued(s: State, r: State, past: seq<nat>, sent: seq<nat>, t: nat)
    requires Valid(s.q) && Valid(r.q) && s.q.send == [] && r.q.send == [] && Queued(s, past, sent)
    ensures Queued(r, past + [t], sent + [t])
  {
    assert sent + Unsent(s.q) == sent && sent + [t] + Unsent(r.q) == sent + [t];
    OrderSnoc(sent, past, t);
  }

  lemma SerialSubmitQueued(s: State, u: State, e: Event, past: seq<nat>, sent: seq<nat>)
    requires e.Submit? && Accepting(s, u, e.token) && s.serial && e.kind != OneWay && Queued(s, past, sent)
    ensures Queued(InvokeSerial(u, e.token, e.kind, e.deadline, e.o), past + [e.token], sent + SentIn(s, e))
  {
    hide Queued, PushOrFail, Valid;
    var id := NextId(u.q.uniq);
    var msg := Message(e.token, e.kind, id);
    var t := u.(q := u.q.(uniq := id));
    var r := InvokeSerial(u, e.token, e.kind, e.deadline, e.o);
    assert sent + [] == sent;
    SameQueueValid(u.q, id);
    if !SendsAtOnce(s, e) || e.o == NotSend {
      PushQueued(s, t, r, msg, e.deadline, false, past, sent);
    } else if e.o == Error || e.o == Throw {
      LaterQueued(s, r, past, sent, e.token);
    } else {
      PushedSend(t.(wire := u.wire + [e.token]), msg, e.deadline);
      SentQueued(s, r, past, sent, e.token);
    }
  }

  lemma SameQueueValid(q: Queue, id: Id)
    requires Valid(q)
    ensures Valid(q.(uniq := id))
  {
  }

  lemma PushedSend(t: State, msg: Message, deadline: int)
    requires Valid(t.q)
    ensures PushOrFail(t, msg, deadline, true).q.send == t.q.send
  {
  }

  lemma ParallelSubmitQueued(s: State, u: State, e: Event, msg: Message, past: seq<nat>, sent: seq<nat>)
    requires e.Submit? && Accepting(s, u, e.token) && !s.serial && msg.token == e.token && msg.kind == e.kind && Queued(s, past, sent)
    ensures Queued(InvokeParallel(u, msg, e.deadline, e.o), past + [e.token], sent + SentIn(s, e))
  {
    hide Queued, PushOrFail, Valid;
    var r := InvokeParallel(u, msg, e.deadline, e.o);
    assert sent + [] == sent;
    if !SendsAtOnce(s, e) || e.o == NotSend {
      PushQueued(s, u, r, msg, e.deadline, false, past, sent);
    } else if e.o == Error || e.o == Throw {
      LaterQueued(s, r, past, sent, e.token);
    } else {
      PushedSend(u, msg, e.deadline);
      SentQueued(s, r, past, sent, e.token);
    }
  }

  function Submitted(es: seq<Event>): (ts: seq<nat>) {
    if es == [] then [] else (if es[0].Submit? then [es[0].token] else []) + Submitted(es[1..])
  }

  /** What a run transmits. */
  function SentOver(s: State, es: seq<Event>): (ts: seq<nat>)
    requires Valid(s.q)
    decreases |es|
  {
    if es == [] then [] else SentIn(s, es[0]) + SentOver(Step(s, es[0]), es[1..])
  }

  lemma StepQueued(s: State, e: Event, past: seq<nat>, sent: seq<nat>)
    requires Valid(s.q) && Queued(s, past, sent) && (s.serial && e.Submit? ==> e.kind != OneWay)
    ensures Queued(Step(s, e), past + Submitted([e]), sent + SentIn(s, e))
  {
    hide Queued;
    assert sent + [] == sent && past + [] == past && [e][1..] == [];
    assert Submitted([e]) == if e.Submit? then [e.token] else [];
    match e
    case Submit(_, _, _, _, _) => SubmitQueued(s, e, past, sent);
    case Flush(os) =>
      if !s.serial {
        ParallelFlushQueued(s, os, past, sent);
      } else if os != [] {
        SerialFlushQueued(s, os[0], past, sent);
      }
    case Reply(_, _, _) => ReplyQueued(s, e, past, sent);
    case Timeouts(now, shield) => TimeoutQueued(s, now, shield, past, sent);
    case Closed => Unmoved(s, Step(s, e), past, sent);
  }

  lemma {:induction false} RunQueued(s: State, es: seq<Event>, past: seq<nat>, sent: seq<nat>)
    requires Valid(s.q) && LegalRun(s, es) && Queued(s, past, sent)
    ensures Queued(Exec(s, es), past + Submitted(es), sent + SentOver(s, es))
    decreases |es|
  {
    hide Queued, Step, SentIn;
    assert past + [] == past && sent + [] == sent;
    if es == [] {
    } else {
      OnlyLegal(s, es[0]);
      StepQueued(s, es[0], past, sent);
      RunQueued(Step(s, es[0]), es[1..], past + Submitted([es[0]]), sent + SentIn(s, es[0]));
      assert [es[0]][1..] == [];
      assert past + Submitted([es[0]]) + Submitted(es[1..]) == past + Submitted(es);
      assert sent + SentIn(s, es[0]) + SentOver(Step(s, es[0]), es[1..]) == sent + SentOver(s, es);
    }
  }

  lemma OnlyLegal(s: State, e: Event)
    requires Legal(s, e)
    ensures s.serial && e.Submit? ==> e.kind != OneWay
  {
  }

  // ----- Main results -----

  /** A message is handed in once. */
  lemma {:induction false} SubmittedOnce(s: State, es: seq<Event>)
    requires Ledger(s) && LegalRun(s, es)
    ensures NoDuplicates(Submitted(es)) && forall t :: t in Submitted(es) ==> t !in s.accepted
    decreases |es|
  {
    hide Step, Ledger;
    if es == [] {
    } else {
      LedgerValid(s);
      StepLedger(s, es[0]);
      SubmittedOnce(Step(s, es[0]), es[1..]);
      AcceptsSubmitted(s, es[0]);
    }
  }

  lemma LedgerValid(s: State)
    requires Ledger(s)
    ensures Valid(s.q)
  {
  }

  lemma AcceptsSubmitted(s: State, e: Event)
    requires Valid(s.q) && (s.serial && e.Submit? ==> e.kind != OneWay)
    ensures Step(s, e).accepted == s.accepted + if e.Submit? then {e.token} else {}
  {
    hide Valid, Erase, MarkSent, Push;
    if e.Submit? { InvokeMoves(s, e); }
  }

  /** In every run, in either mode, requests go onto the connection in the order in which they were handed in,
      before all that still wait, and none goes twice, whatever sends fail, connections close and requests time out. */
  lemma SentInOrder(serial: bool, limit: nat, es: seq<Event>)
    requires LegalRun(Init(serial, limit), es)
    ensures var s := Init(serial, limit); var line := SentOver(s, es) + Unsent(Exec(s, es).q);
            InOrder(line, Submitted(es)) && NoDuplicates(line)
  {
    hide InOrder, Ledger, Step, Legal;
    var s := Init(serial, limit);
    NothingQueued(s);
    RunQueued(s, es, [], []);
    assert [] + Submitted(es) == Submitted(es) && [] + SentOver(s, es) == SentOver(s, es);
    InitLedger(serial, limit);
    SubmittedOnce(s, es);
    OrderedOnce(SentOver(s, es) + Unsent(Exec(s, es).q), Submitted(es));
  }

  lemma NothingQueued(s: State)
    requires Valid(s.q) && s.q.send == []
    ensures Queued(s, [], [])
  {
  }

  lemma OrderedOnce(line: seq<nat>, past: seq<nat>)
    requires InOrder(line, past) && NoDuplicates(past)
    ensures NoDuplicates(line)
  {
    forall i, j | 0 <= i < j < |line| ensures line[i] != line[j] {
      assert Before(past, line[i], line[j]);
    }
  }
}
