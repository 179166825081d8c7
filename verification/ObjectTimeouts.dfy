/** Messages end: doTimeout finishes or disposes of whatever is due. */
module ObjectTimeouts {
  import opened TimeoutQueue
  import opened RequestLifecycle
  import opened ObjectQueue
  import opened ObjectRuns
  import LifecycleRuns
  import Deadlines

  /** Wherever the message waits, its deadline there has passed. */
  ghost predicate Due(o: Object, t: nat, now: int) {
    && (forall i :: 0 <= i < |o.queue| && o.queue[i].call.token == t ==> o.queue[i].deadline <= now)
    && (forall a :: 0 <= a < |o.adapters| ==> DueAt(o.adapters[a], t, now))
  }

  ghost predicate DueAt(s: State, t: nat, now: int) {
    forall id :: id in s.q.data && s.q.data[id].msg.token == t ==> s.q.data[id].deadline <= now
  }

  /** After doTimeout an adapter holds nothing of a message that was due. */
  lemma DueIsNotHeld(s: State, t: nat, now: int, shield: nat -> bool)
    requires Ledger(s) && DueAt(s, t, now)
    ensures !IsHeld(DoTimeout(s, now, shield), t)
  {
    Deadlines.TimeoutTakes(s, now, shield);
  }

  // ----- The queue -----

  /** The messages that are not due, in order. */
  function NotDue(q: seq<Waiting>, now: int): (r: seq<Waiting>) {
    if q == [] then [] else (if q[0].deadline > now then [q[0]] else []) + NotDue(q[1..], now)
  }

  lemma {:induction false} NotDueConcat(a: seq<Waiting>, b: seq<Waiting>, now: int)
    ensures NotDue(a + b, now) == NotDue(a, now) + NotDue(b, now)
  {
    if a == [] {
      assert a + b == b;
    } else {
      assert (a + b)[1..] == a[1..] + b;
      NotDueConcat(a[1..], b, now);
    }
  }

  lemma RemoveDue(q: seq<Waiting>, i: nat, now: int)
    requires i < |q| && q[i].deadline <= now
    ensures NotDue(Remove(q, i), now) == NotDue(q, now)
    ensures multiset(q) == multiset(Remove(q, i)) + multiset{q[i]} && |Remove(q, i)| < |q|
  {
    assert q == q[..i] + ([q[i]] + q[i + 1..]);
    NotDueConcat(q[..i], [q[i]] + q[i + 1..], now);
    NotDueConcat([q[i]], q[i + 1..], now);
    assert [q[i]][1..] == [];
    NotDueConcat(q[..i], q[i + 1..], now);
  }

  lemma {:induction false} AllStay(q: seq<Waiting>, now: int)
    requires forall i :: 0 <= i < |q| ==> q[i].deadline > now
    ensures NotDue(q, now) == q
  {
    if q == [] {
    } else {
      AllStay(q[1..], now);
    }
  }

  lemma {:induction false} NotDueMembers(q: seq<Waiting>, now: int, w: Waiting)
    ensures w in NotDue(q, now) <==> w in q && w.deadline > now
  {
    if q == [] {
    } else {
      NotDueMembers(q[1..], now, w);
      assert q == [q[0]] + q[1..];
    }
  }

  /** How the messages of the queue end one after the other. */
  function Ends(gone: seq<Waiting>): (ends: seq<End>) {
    seq(|gone|, i requires 0 <= i < |gone| => End(gone[i].call.token, FateOf(gone[i].call, gone[i].bound.Some?)))
  }

  /** Exactly the messages that are due leave the queue, in the order of their deadlines; the others stay in order. */
  lemma {:induction false} ExpireTakes(o: Object, now: int) returns (gone: seq<Waiting>)
    ensures ExpireQueue(o, now).queue == NotDue(o.queue, now)
    ensures ExpireQueue(o, now).disposed == o.disposed + Ends(gone)
    ensures multiset(o.queue) == multiset(gone) + multiset(NotDue(o.queue, now))
    ensures forall i :: 0 <= i < |gone| ==> gone[i].deadline <= now
    ensures forall i, j :: 0 <= i < j < |gone| ==> gone[i].deadline <= gone[j].deadline
    decreases |o.queue|
  {
    hide NotDue, Ends, FateOf, Remove;
    if !Late(o.queue, now) {
      gone := [];
      AllStay(o.queue, now);
      NoEnds(o.disposed);
      assert multiset(gone) + multiset(o.queue) == multiset(o.queue);
    } else {
      var i := Earliest(o.queue);
      var w := o.queue[i];
      var p := Dispose(o.(queue := Remove(o.queue, i)), w.call, w.bound.Some?);
      RemoveDue(o.queue, i, now);
      var rest := ExpireTakes(p, now);
      gone := [w] + rest;
      EndsCons(o.disposed, w, rest);
      LeastFirst(o.queue, p.queue, w, rest, now);
    }
  }

  lemma NoEnds(before: seq<End>)
    ensures before + Ends([]) == before
  {
  }

  lemma EndsCons(before: seq<End>, w: Waiting, rest: seq<Waiting>)
    ensures before + [End(w.call.token, FateOf(w.call, w.bound.Some?))] + Ends(rest) == before + Ends([w] + rest)
  {
    hide FateOf;
  }

  lemma LeastFirst(q: seq<Waiting>, p: seq<Waiting>, w: Waiting, rest: seq<Waiting>, now: int)
    requires forall j :: 0 <= j < |q| ==> w.deadline <= q[j].deadline
    requires multiset(q) == multiset(p) + multiset{w} && multiset(p) == multiset(rest) + multiset(NotDue(p, now))
    requires NotDue(p, now) == NotDue(q, now)
    ensures multiset(q) == multiset([w] + rest) + multiset(NotDue(q, now))
    ensures forall x :: x in rest ==> w.deadline <= x.deadline
  {
    forall x | x in rest ensures w.deadline <= x.deadline {
      assert x in multiset(rest) && x in multiset(p) && x in multiset(q);
      assert x in q;
    }
  }

  lemma DueIsNotQueued(o: Object, t: nat, now: int)
    requires forall i :: 0 <= i < |o.queue| && o.queue[i].call.token == t ==> o.queue[i].deadline <= now
    ensures !InQueue(ExpireQueue(o, now), t)
  {
    var gone := ExpireTakes(o, now);
    var q := ExpireQueue(o, now).queue;
    forall i | 0 <= i < |q| ensures q[i].call.token != t {
      NotDueMembers(o.queue, now, q[i]);
      assert q[i] in o.queue;
    }
  }

  /** doTimeout leaves a queued message that is not due where it is. */
  lemma NotDueStays(o: Object, now: int, shield: nat -> bool, i: nat)
    requires Sound(o) && i < |o.queue| && o.queue[i].deadline > now
    ensures o.queue[i] in TimeOut(o, now, shield).queue
  {
    var gone := ExpireTakes(o.(adapters := AllTimedOut(o.adapters, now, shield)), now);
    NotDueMembers(o.queue, now, o.queue[i]);
  }

  /** Finished exactly once, or lost, and not both. */
  ghost predicate EndedAt(s: State, t: nat) {
    && (IsFinished(s, t) <==> t !in s.dropped)
    && forall i, j :: 0 <= i < |s.log| && 0 <= j < |s.log| && s.log[i].token == t && s.log[j].token == t ==> i == j
  }

  /** Disposed of once, or ended by one adapter and by it alone. */
  ghost predicate Ended(o: Object, t: nat) {
    && !InQueue(o, t)
    && (Times(o.disposed, t) == 1 || exists a: nat :: AtAdapter(o, a, t))
    && (forall a: nat :: AtAdapter(o, a, t) ==> OnlyAt(o, a, t) && EndedAt(o.adapters[a], t))
  }

  ghost predicate OnlyAt(o: Object, a: nat, t: nat) {
    Times(o.disposed, t) == 0 && forall b: nat :: AtAdapter(o, b, t) ==> b == a
  }

  /** In every run: once doTimeout runs past every deadline of a message that was given, the message has been
      disposed of once, or one adapter has finished it once or lost it to a throwing send, and only one of these. */
  lemma DueMessagesEnd(serial: bool, es: seq<Event>, now: int, shield: nat -> bool, t: nat)
    requires LegalRun(NewObject(serial), es) && t in Exec(NewObject(serial), es).given
    requires Due(Exec(NewObject(serial), es), t, now)
    ensures Ended(Step(Exec(NewObject(serial), es), Deadlines(now, shield)), t)
  {
    hide Due, Inv, Ended;
    NewObjectInv(serial);
    RunKeeps(NewObject(serial), es);
    TimeoutEnds(Exec(NewObject(serial), es), now, shield, t);
  }

  lemma NewObjectInv(serial: bool)
    ensures Inv(NewObject(serial))
  {
  }

  lemma TimeoutEnds(o: Object, now: int, shield: nat -> bool, t: nat)
    requires Inv(o) && Sound(o) && t in o.given && Due(o, t, now)
    ensures Ended(TimeOut(o, now, shield), t)
  {
    hide Inv, EndedAt;
    var r := TimeOut(o, now, shield);
    var p := o.(adapters := AllTimedOut(o.adapters, now, shield));
    TimeOutKeeps(o, now, shield);
    GivenStays(p, now);
    PlacesMean(r, t);
    DueIsNotQueued(p, t, now);
    forall a: nat | AtAdapter(r, a, t) ensures EndedAt(r.adapters[a], t) {
      NotHeldMeansEnded(o, now, shield, t, a);
    }
  }

  lemma {:induction false} GivenStays(o: Object, now: int)
    ensures ExpireQueue(o, now).given == o.given
    decreases |o.queue|
  {
    if !Late(o.queue, now) {
    } else {
      var i := Earliest(o.queue);
      GivenStays(Dispose(o.(queue := Remove(o.queue, i)), o.queue[i].call, o.queue[i].bound.Some?), now);
    }
  }

  lemma NotHeldMeansEnded(o: Object, now: int, shield: nat -> bool, t: nat, a: nat)
    requires Inv(o) && Sound(o) && Due(o, t, now) && AtAdapter(TimeOut(o, now, shield), a, t)
    ensures EndedAt(TimeOut(o, now, shield).adapters[a], t)
  {
    var s := o.adapters[a];
    assert AdaptersOk(o) && DueAt(s, t, now);
    DueIsNotHeld(s, t, now, shield);
    LifecycleRuns.TimeoutLedger(s, now, shield);
    var q := DoTimeout(s, now, shield);
    assert TimeOut(o, now, shield).adapters[a] == q;
    LedgerEnds(q, t);
  }

  lemma LedgerEnds(s: State, t: nat)
    requires Ledger(s) && t in s.accepted && !IsHeld(s, t)
    ensures EndedAt(s, t)
  {
    assert forall i, j :: 0 <= i < j < |s.log| ==> s.log[i].token != s.log[j].token;
  }
}
