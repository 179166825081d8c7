/** What doTimeout takes and what it leaves, and that no request times out before its deadline. */
module Deadlines {
  import opened Basics
  import opened TimeoutQueue
  import opened RequestLifecycle
  import opened LifecycleRuns

  // ----- One doTimeout -----

  function NotDue(data: map<Id, Item>, now: int): (r: map<Id, Item>) {
    map id | id in data && data[id].deadline > now :: data[id]
  }

  /** Exactly the requests that are due leave; every other stays as it is. */
  lemma {:induction false} TimeoutTakes(s: State, now: int, shield: nat -> bool)
    requires Valid(s.q)
    ensures DoTimeout(s, now, shield).q.data == NotDue(s.q.data, now)
    decreases |s.q.data|
  {
    hide Valid, Erase;
    if !Expired(s.q, now) {
      NothingExpired(s.q, now);
    } else {
      var id := s.q.time[0];
      FirstIsHeld(s.q);
      ExpireShrinks(s, id);
      TimeoutTakes(Expire(s, id, shield(s.q.data[id].msg.token)), now, shield);
    }
  }

  function TimedOuts(data: map<Id, Item>, ids: seq<Id>): (log: seq<Done>)
    requires forall id :: id in ids ==> id in data
  {
    seq(|ids|, i requires 0 <= i < |ids| => assert ids[i] in ids; Done(data[ids[i]].msg.token, TimedOut))
  }

  lemma TimeWithoutFirst(q: Queue)
    requires Valid(q) && q.time != []
    ensures q.time[0] in q.data && Erase(q, q.time[0]).time == q.time[1..]
    ensures q.time[0] !in q.time[1..]
  {
    FirstIsHeld(q);
    assert q.time[0] !in q.time[1..];
    WithoutAbsent(q.time[1..], q.time[0]);
  }

  /** They are finished in the order of their deadlines, each once. */
  lemma {:induction false} TimeoutFinishes(s: State, now: int, shield: nat -> bool) returns (due: seq<Id>)
    requires Valid(s.q)
    ensures due <= s.q.time
    ensures forall id :: id in due <==> id in s.q.data && s.q.data[id].deadline <= now
    ensures DoTimeout(s, now, shield).log == s.log + TimedOuts(s.q.data, due)
    decreases |s.q.data|
  {
    hide Valid, TimedOuts;
    if !Expired(s.q, now) {
      NothingExpired(s.q, now);
      due := [];
      NoTimedOuts(s);
    } else {
      var id := s.q.time[0];
      TimeWithoutFirst(s.q);
      ExpireShrinks(s, id);
      var t := Expire(s, id, shield(s.q.data[id].msg.token));
      var rest := TimeoutFinishes(t, now, shield);
      due := [id] + rest;
      TimedOutFirst(s, t, now, id, rest);
    }
  }

  lemma NoTimedOuts(s: State)
    ensures s.log == s.log + TimedOuts(s.q.data, [])
  {
  }

  lemma TimedOutFirst(s: State, t: State, now: int, id: Id, rest: seq<Id>)
    requires id in s.q.data && s.q.data[id].deadline <= now && t.q.data == s.q.data - {id}
    requires t.log == s.log + [Done(s.q.data[id].msg.token, TimedOut)]
    requires forall x :: x in rest <==> x in t.q.data && t.q.data[x].deadline <= now
    ensures forall x :: x in [id] + rest <==> x in s.q.data && s.q.data[x].deadline <= now
    ensures t.log + TimedOuts(t.q.data, rest) == s.log + TimedOuts(s.q.data, [id] + rest)
  {
  }

  /** A request whose timing out gives the connection up: it is in flight, or finishing it shields the node. */
  ghost predicate Breaks(s: State, now: int, shield: nat -> bool, id: Id) {
    id in s.q.data && s.q.data[id].deadline <= now
    && (s.requestMsg == Some(s.q.data[id].msg) || shield(s.q.data[id].msg.token))
  }

  /** The connection is given up if and only if one of them does; `_requestMsg` is forgotten if and only if it is due. */
  lemma {:induction false} TimeoutConnection(s: State, now: int, shield: nat -> bool)
    requires Valid(s.q)
    ensures var r := DoTimeout(s, now, shield);
            && r.epoch >= s.epoch
            && (r.epoch > s.epoch <==> exists id :: Breaks(s, now, shield, id))
            && r.wire == (if r.epoch > s.epoch then [] else s.wire)
            && r.requestMsg == if exists id :: id in s.q.data && s.q.data[id].deadline <= now && s.requestMsg == Some(s.q.data[id].msg)
                               then None else s.requestMsg
    decreases |s.q.data|
  {
    if !Expired(s.q, now) {
      NothingExpired(s.q, now);
    } else {
      var id := s.q.time[0];
      FirstIsHeld(s.q);
      ExpireShrinks(s, id);
      var t := Expire(s, id, shield(s.q.data[id].msg.token));
      TimeoutConnection(t, now, shield);
      OneLess(s, t, now, shield, id);
    }
  }

  lemma OneLess(s: State, t: State, now: int, shield: nat -> bool, id: Id)
    requires Valid(s.q) && id in s.q.data && s.q.data[id].deadline <= now && t == Expire(s, id, shield(s.q.data[id].msg.token))
    ensures (exists x :: Breaks(s, now, shield, x)) <==> Breaks(s, now, shield, id) || exists x :: Breaks(t, now, shield, x)
    ensures t.epoch >= s.epoch && (t.epoch > s.epoch <==> Breaks(s, now, shield, id))
  {
    if x :| Breaks(s, now, shield, x) && x != id {
      assert Breaks(t, now, shield, x);
    }
    if x :| Breaks(t, now, shield, x) {
      assert Breaks(s, now, shield, x);
    }
  }

  // ----- Every run -----

  /** The request is held for the message of the event: with its kind and deadline and, in parallel mode, under the id
      it brought, if any. */
  ghost predicate HeldFor(x: Item, serial: bool, e: Event) {
    && e.Submit? && x.msg.token == e.token && x.msg.kind == e.kind && x.deadline == e.deadline
    && (!serial && e.rpcId.Some? ==> x.msg.id == e.rpcId.value)
  }

  ghost predicate HandedIn(past: seq<Event>, serial: bool, x: Item) {
    exists i :: 0 <= i < |past| && HeldFor(x, serial, past[i])
  }

  /** A doTimeout ran at or after the deadline the message was handed in with. */
  ghost predicate Timely(past: seq<Event>, token: nat) {
    exists i, j :: 0 <= i < j < |past| && past[i].Submit? && past[i].token == token && past[j].Timeouts? && past[i].deadline <= past[j].now
  }

  /** What the adapter holds was handed in so, and what has timed out was late. */
  ghost predicate Punctual(s: State, past: seq<Event>) {
    && (forall id :: id in s.q.data ==> HandedIn(past, s.serial, s.q.data[id]))
    && (forall i :: 0 <= i < |s.log| && s.log[i].how == TimedOut ==> Timely(past, s.log[i].token))
  }

  /** From `s` to `r` only `e` brings in anything, and nothing times out. */
  ghost predicate Carries(s: State, r: State, e: Event) {
    && (forall id :: id in r.q.data ==>
          var x := r.q.data[id];
          (id in s.q.data && x.msg == s.q.data[id].msg && x.deadline == s.q.data[id].deadline)
          || HeldFor(x, s.serial, e))
    && r.serial == s.serial && s.log <= r.log && (forall i :: |s.log| <= i < |r.log| ==> r.log[i].how != TimedOut)
  }

  lemma CarriesMove(s: State, r: State, e: Event, v: Move)
    requires Moves(s, r, v) && r.serial == s.serial
    requires v.HoldNew? ==> HeldFor(Item(v.msg, v.deadline, v.hasSend), s.serial, e)
    requires (v.FinishNew? || v.FinishHeld?) ==> v.how != TimedOut
    ensures Carries(s, r, e)
  {
  }

  lemma SubmitCarries(s: State, e: Event)
    requires Valid(s.q) && e.Submit? && (s.serial ==> e.kind != OneWay)
    ensures Carries(s, Step(s, e), e)
  {
    hide Moves, Step;
    InvokeMoves(s, e);
    SameMode(s, e);
    CarriesMove(s, Step(s, e), e, InvokeMove(s, e));
  }

  lemma SameMode(s: State, e: Event)
    requires Valid(s.q)
    ensures Step(s, e).serial == s.serial
  {
    hide Valid, Erase, MarkSent, Push;
  }

  lemma {:induction false} FlushCarries(s: State, os: seq<Outcome>, e: Event)
    requires Valid(s.q)
    ensures Carries(s, DoInvokeParallel(s, os), e)
    decreases |os|
  {
    hide SendNext, Moves, Carries;
    if s.q.send == [] || os == [] {
      CarriesSame(s, s, e);
    } else {
      var t := SendNext(s, os[0]);
      SendMoves(s, os[0]);
      CarriesMove(s, t, e, SendMove(s, os[0]));
      if os[0] == Ok {
        FlushCarries(t, os[1..], e);
        CarriesOn(s, t, DoInvokeParallel(t, os[1..]), e);
      }
    }
  }

  lemma CarriesSame(s: State, r: State, e: Event)
    requires r.q.data == s.q.data && r.log == s.log && r.serial == s.serial
    ensures Carries(s, r, e)
  {
  }

  lemma CarriesOn(s: State, t: State, r: State, e: Event)
    requires Carries(s, t, e) && Carries(t, r, e)
    ensures Carries(s, r, e)
  {
  }

  lemma OtherCarries(s: State, e: Event)
    requires Valid(s.q) && !e.Timeouts? && (s.serial && e.Submit? ==> e.kind != OneWay)
    ensures Carries(s, Step(s, e), e)
  {
    hide Moves, Carries;
    match e
    case Submit(_, _, _, _, _) => SubmitCarries(s, e);
    case Flush(os) =>
      if !s.serial {
        FlushCarries(s, os, e);
      } else if os == [] {
        CarriesSame(s, s, e);
      } else {
        SerialSendMoves(s, os[0]);
        CarriesMove(s, Step(s, e), e, SerialSendMove(s, os[0]));
      }
    case Reply(_, _, _) => ReplyCarries(s, e);
    case Closed => CarriesSame(s, Step(s, e), e);
  }

  lemma ReplyCarries(s: State, e: Event)
    requires Valid(s.q) && e.Reply?
    ensures Carries(s, Step(s, e), e)
  {
    hide Moves, Carries;
    if s.serial {
      var t := if s.wire == [] then s else s.(wire := s.wire[1..]);
      SerialReplyMoves(t, e.answers);
      CarriesMove(t, Step(s, e), e, SerialReplyMove(t, e.answers));
      CarriesSame(s, t, e);
      CarriesOn(s, t, Step(s, e), e);
    } else {
      ParallelReplyMoves(s, e.id, e.answers, e.pushCallback);
      CarriesMove(s, Step(s, e), e, ParallelReplyMove(s, e.id, e.answers));
    }
  }

  lemma PastGrows(past: seq<Event>, e: Event)
    ensures forall x, serial :: HandedIn(past, serial, x) ==> HandedIn(past + [e], serial, x)
    ensures forall t :: Timely(past, t) ==> Timely(past + [e], t)
    ensures forall x, serial :: HeldFor(x, serial, e) ==> HandedIn(past + [e], serial, x)
    ensures e.Timeouts? ==>
              forall x, serial :: HandedIn(past, serial, x) && x.deadline <= e.now ==> Timely(past + [e], x.msg.token)
  {
    var more := past + [e];
    assert more[|past|] == e;
    forall x, serial | HandedIn(past, serial, x)
      ensures HandedIn(more, serial, x) && (e.Timeouts? && x.deadline <= e.now ==> Timely(more, x.msg.token))
    {
      var i :| 0 <= i < |past| && HeldFor(x, serial, past[i]);
      assert more[i] == past[i] && HeldFor(x, serial, more[i]);
    }
    forall t | Timely(past, t) ensures Timely(more, t) {
      var i, j :| 0 <= i < j < |past| && past[i].Submit? && past[i].token == t && past[j].Timeouts? && past[i].deadline <= past[j].now;
      assert more[i] == past[i] && more[j] == past[j];
    }
  }

  lemma SameItem(x: Item, y: Item, past: seq<Event>, serial: bool)
    requires x.msg == y.msg && x.deadline == y.deadline && HandedIn(past, serial, x)
    ensures HandedIn(past, serial, y)
  {
    var i :| 0 <= i < |past| && HeldFor(x, serial, past[i]);
    assert HeldFor(y, serial, past[i]);
  }

  lemma CarriesPunctual(s: State, r: State, past: seq<Event>, e: Event)
    requires Punctual(s, past) && Carries(s, r, e)
    ensures Punctual(r, past + [e])
  {
    PastGrows(past, e);
    hide HandedIn, Timely, HeldFor;
    forall id | id in r.q.data ensures HandedIn(past + [e], r.serial, r.q.data[id]) {
      if id in s.q.data && s.q.data[id].msg == r.q.data[id].msg && s.q.data[id].deadline == r.q.data[id].deadline {
        SameItem(s.q.data[id], r.q.data[id], past + [e], s.serial);
      }
    }
    forall i | 0 <= i < |r.log| && r.log[i].how == TimedOut ensures Timely(past + [e], r.log[i].token) {
      assert i < |s.log| && s.log[i] == r.log[i];
    }
  }

  lemma TimeoutPunctual(s: State, past: seq<Event>, e: Event)
    requires Valid(s.q) && e.Timeouts? && Punctual(s, past)
    ensures Punctual(Step(s, e), past + [e])
  {
    hide HandedIn, Timely, DoTimeout;
    var r := Step(s, e);
    TimeoutTakes(s, e.now, e.shield);
    var due := TimeoutFinishes(s, e.now, e.shield);
    PastGrows(past, e);
    forall i | 0 <= i < |r.log| && r.log[i].how == TimedOut ensures Timely(past + [e], r.log[i].token) {
      if i < |s.log| {
        assert s.log[i] == r.log[i];
      } else {
        var x := s.q.data[due[i - |s.log|]];
        assert r.log[i].token == x.msg.token && due[i - |s.log|] in due;
        assert HandedIn(past, s.serial, x);
      }
    }
  }

  lemma {:induction false} RunPunctual(s: State, es: seq<Event>, past: seq<Event>)
    requires Valid(s.q) && LegalRun(s, es) && Punctual(s, past)
    ensures Punctual(Exec(s, es), past + es)
    decreases |es|
  {
    hide Punctual, Step;
    if es == [] {
      assert past + es == past;
    } else {
      var e := es[0];
      if e.Timeouts? {
        TimeoutPunctual(s, past, e);
      } else {
        OtherCarries(s, e);
        CarriesPunctual(s, Step(s, e), past, e);
      }
      RunPunctual(Step(s, e), es[1..], past + [e]);
      assert past + [e] + es[1..] == past + es;
    }
  }

  /** In every run, in either mode: each held request has the kind, the deadline and (in parallel mode) the id it was
      handed in with, and each request that has timed out did so in a doTimeout at or after its deadline. */
  lemma NoneTimesOutEarly(serial: bool, limit: nat, es: seq<Event>)
    requires LegalRun(Init(serial, limit), es)
    ensures Punctual(Exec(Init(serial, limit), es), es)
  {
    RunPunctual(Init(serial, limit), es, []);
    assert [] + es == es;
  }
}
