/** Parallel mode: replies are paired with requests by id.  Which request a reply completes, and when
    that is the request it answers. */
module ParallelReplies {
  import opened Basics
  import opened TimeoutQueue
  import opened RequestLifecycle
  import opened LifecycleRuns

  /** An adapter and the id each accepted message got. */
  datatype Tracked = Tracked(s: State, ids: map<nat, Id>)

  /** The id a submitted message gets: its own when it comes from rpc_call, else a generated one. */
  function IdGiven(s: State, e: Event): (id: Id)
    requires e.Submit?
  {
    match e.rpcId
    case None => NextId(s.q.uniq)
    case Some(id) => id
  }

  /** A message turned away by the overload limit gets no id. */
  predicate GetsId(s: State, e: Event) { e.Submit? && |s.q.send| <= s.limit }

  function Track(t: Tracked, e: Event): (r: Tracked)
    requires Valid(t.s.q)
    ensures Valid(r.s.q)
  {
    Tracked(Step(t.s, e), if GetsId(t.s, e) then t.ids[e.token := IdGiven(t.s, e)] else t.ids)
  }

  /** The peer answers a request with the id the request carried, or pushes with id zero. */
  ghost predicate HonestPeer(t: Tracked, e: Event) {
    e.Reply? ==> e.id == 0 || (e.answers in t.ids && e.id == t.ids[e.answers])
  }

  /** The id is not zero and no earlier message got it. */
  ghost predicate FreshId(t: Tracked, e: Event) {
    GetsId(t.s, e) ==> IdGiven(t.s, e) != 0 && IdGiven(t.s, e) !in t.ids.Values
  }

  /** What a message is held under is the id it got. */
  ghost predicate Inv(t: Tracked) {
    && Ledger(t.s) && !t.s.serial
    && (forall id :: id in t.s.q.data ==>
          t.s.q.data[id].msg.token in t.ids && t.ids[t.s.q.data[id].msg.token] == id)
  }

  ghost predicate Distinct(ids: map<nat, Id>) {
    && (forall a, b :: a in ids && b in ids && ids[a] == ids[b] ==> a == b)
    && (forall a :: a in ids ==> ids[a] != 0)
  }

  // ----- One reply -----

  /** The reply to `a` completes `a` while it is held, and otherwise touches nothing. */
  ghost predicate RightReply(t: Tracked, a: nat, push: bool)
    requires Valid(t.s.q) && a in t.ids
  {
    var r := FinishParallel(t.s, t.ids[a], a, push);
    if IsHeld(t.s, a) then r.log == t.s.log + [Done(a, Replied(a))] && r.q.data == t.s.q.data - {t.ids[a]}
    else r.log == t.s.log && r.q == t.s.q
  }

  /** No held message shares its id with another message or carries id zero. */
  ghost predicate HeldAlone(t: Tracked) {
    forall a :: a in t.ids && IsHeld(t.s, a) ==>
      t.ids[a] != 0 && forall b :: b in t.ids && t.ids[b] == t.ids[a] ==> b == a
  }

  lemma HeldUnderOwnId(t: Tracked, a: nat)
    requires Inv(t) && IsHeld(t.s, a)
    ensures a in t.ids && t.ids[a] in t.s.q.data && t.s.q.data[t.ids[a]].msg.token == a && !IsFinished(t.s, a)
  {
    var id :| id in t.s.q.data && t.s.q.data[id].msg.token == a;
  }

  lemma RightWhenAlone(t: Tracked, a: nat, push: bool)
    requires Inv(t) && a in t.ids && HeldAlone(t)
    ensures RightReply(t, a, push)
  {
    var id := t.ids[a];
    if id in t.s.q.data {
      assert IsHeld(t.s, t.s.q.data[id].msg.token);
    }
    if IsHeld(t.s, a) {
      HeldUnderOwnId(t, a);
    }
  }

  lemma WrongWhenShared(t: Tracked, a: nat, b: nat, push: bool)
    requires Inv(t) && a in t.ids && b in t.ids && IsHeld(t.s, a) && t.ids[a] == t.ids[b]
    requires a == b <==> t.ids[a] == 0
    ensures !RightReply(t, b, push)
  {
    HeldUnderOwnId(t, a);
    assert a != b ==> !IsHeld(t.s, b) by {
      if a != b && IsHeld(t.s, b) {
        HeldUnderOwnId(t, b);
      }
    }
    var r := FinishParallel(t.s, t.ids[b], b, push);
    assert r.log == if a == b then t.s.log else t.s.log + [Done(a, Replied(b))];
  }

  /** In any state every reply is right if and only if no held message shares its id or has id zero. */
  lemma RepliesRightIffAlone(t: Tracked, push: bool)
    requires Inv(t)
    ensures (forall a :: a in t.ids ==> RightReply(t, a, push)) <==> HeldAlone(t)
  {
    if HeldAlone(t) {
      forall a | a in t.ids ensures RightReply(t, a, push) {
        RightWhenAlone(t, a, push);
      }
    } else {
      var a :| a in t.ids && IsHeld(t.s, a)
               && !(t.ids[a] != 0 && forall b :: b in t.ids && t.ids[b] == t.ids[a] ==> b == a);
      if t.ids[a] == 0 {
        WrongWhenShared(t, a, a, push);
      } else {
        var b :| b in t.ids && t.ids[b] == t.ids[a] && b != a;
        WrongWhenShared(t, a, b, push);
      }
    }
  }

  // ----- Every step -----

  /** From `s` to `r` nothing new is held and no reply completes anything. */
  ghost predicate Silent(s: State, r: State) {
    && (forall id :: id in r.q.data ==> id in s.q.data && r.q.data[id].msg == s.q.data[id].msg)
    && s.log <= r.log && (forall i :: |s.log| <= i < |r.log| ==> !r.log[i].how.Replied?)
  }

  lemma SilentTransitive(s: State, t: State, r: State)
    requires Silent(s, t) && Silent(t, r)
    ensures Silent(s, r)
  {
  }

  lemma {:induction false} FlushSilent(s: State, os: seq<Outcome>)
    requires Valid(s.q)
    ensures Silent(s, DoInvokeParallel(s, os))
    decreases |os|
  {
    if s.q.send == [] || os == [] {
    } else {
      SendMoves(s, os[0]);
      assert Silent(s, SendNext(s, os[0]));
      if os[0] == Ok {
        FlushSilent(SendNext(s, Ok), os[1..]);
        SilentTransitive(s, SendNext(s, Ok), DoInvokeParallel(s, os));
      }
    }
  }

  lemma ExpireSilent(s: State, id: Id, shield: bool)
    requires Valid(s.q) && id in s.q.data
    ensures Silent(s, Expire(s, id, shield))
  {
  }

  lemma {:induction false} TimeoutSilent(s: State, now: int, shield: nat -> bool)
    requires Valid(s.q)
    ensures Silent(s, DoTimeout(s, now, shield))
    decreases |s.q.data|
  {
    if !Expired(s.q, now) {
    } else {
      var id := s.q.time[0];
      FirstIsHeld(s.q);
      ExpireShrinks(s, id);
      var t := Expire(s, id, shield(s.q.data[id].msg.token));
      ExpireSilent(s, id, shield(s.q.data[id].msg.token));
      TimeoutSilent(t, now, shield);
      SilentTransitive(s, t, DoTimeout(t, now, shield));
    }
  }

  /** What invoke does with a message in parallel mode: held under the id it got, finished without a
      reply, or dropped. */
  lemma InvokeMoveIs(s: State, e: Event)
    requires !s.serial && e.Submit?
    ensures match InvokeMove(s, e)
            case FinishNew(token, how) => token == e.token && !how.Replied?
            case HoldNew(msg, _, _) => msg.token == e.token && msg.id == IdGiven(s, e) && GetsId(s, e)
            case DropNew(token) => token == e.token
            case _ => false
  {
  }

  lemma SubmitHolds(t: Tracked, e: Event)
    requires Inv(t) && e.Submit? && Legal(t.s, e)
    ensures forall id :: id in Step(t.s, e).q.data ==>
              (id in t.s.q.data && Step(t.s, e).q.data[id].msg == t.s.q.data[id].msg)
              || (GetsId(t.s, e) && id == IdGiven(t.s, e) && Step(t.s, e).q.data[id].msg.token == e.token)
    ensures t.s.log <= Step(t.s, e).log
    ensures forall i :: |t.s.log| <= i < |Step(t.s, e).log| ==> !Step(t.s, e).log[i].how.Replied?
  {
    InvokeMoves(t.s, e);
    InvokeMoveIs(t.s, e);
  }

  lemma SubmitKeeps(t: Tracked, e: Event)
    requires Inv(t) && e.Submit? && Legal(t.s, e)
    ensures Inv(Track(t, e))
    ensures RepliesMatch(t.s.log) ==> RepliesMatch(Track(t, e).s.log)
  {
    StepLedger(t.s, e);
    StepParallelSerial(t.s, e);
    SubmitHolds(t, e);
    assert forall id :: id in t.s.q.data ==> t.s.q.data[id].msg.token != e.token;
  }

  lemma StepParallelSerial(s: State, e: Event)
    requires Valid(s.q) && !s.serial
    ensures !Step(s, e).serial
  {
  }

  lemma SilentKeeps(t: Tracked, r: State)
    requires Inv(t) && RepliesMatch(t.s.log) && Silent(t.s, r) && Ledger(r) && !r.serial
    ensures Inv(t.(s := r)) && RepliesMatch(r.log)
  {
  }

  lemma ReplyKeeps(t: Tracked, e: Event)
    requires Inv(t) && e.Reply? && HonestPeer(t, e) && Distinct(t.ids) && RepliesMatch(t.s.log)
    ensures Inv(Track(t, e)) && RepliesMatch(Track(t, e).s.log)
  {
    var r := Step(t.s, e);
    StepLedger(t.s, e);
    if e.id == 0 {
      SilentKeeps(t, r);
    } else {
      RightWhenAlone(t, e.answers, e.pushCallback);
      if IsHeld(t.s, e.answers) {
        HeldReplyKeeps(t, r, e.answers);
      } else {
        SilentKeeps(t, r);
      }
    }
  }

  lemma HeldReplyKeeps(t: Tracked, r: State, a: nat)
    requires Inv(t) && RepliesMatch(t.s.log) && a in t.ids && Ledger(r) && !r.serial
    requires r.log == t.s.log + [Done(a, Replied(a))] && r.q.data == t.s.q.data - {t.ids[a]}
    ensures Inv(t.(s := r)) && RepliesMatch(r.log)
  {
  }

  lemma StepKeeps(t: Tracked, e: Event)
    requires Inv(t) && Legal(t.s, e) && HonestPeer(t, e) && Distinct(t.ids) && RepliesMatch(t.s.log)
    ensures Inv(Track(t, e)) && RepliesMatch(Track(t, e).s.log)
  {
    match e
    case Submit(_, _, _, _, _) => SubmitKeeps(t, e);
    case Reply(_, _, _) => ReplyKeeps(t, e);
    case _ =>
      StepLedger(t.s, e);
      StepParallelSerial(t.s, e);
      OtherSilent(t.s, e);
      SilentKeeps(t, Step(t.s, e));
  }

  lemma OtherSilent(s: State, e: Event)
    requires Valid(s.q) && !s.serial && !e.Submit? && !e.Reply?
    ensures Silent(s, Step(s, e))
  {
    match e
    case Flush(os) => FlushSilent(s, os);
    case Timeouts(now, shield) => TimeoutSilent(s, now, shield);
    case Closed =>
  }

  // ----- Runs -----

  ghost predicate GoodRun(t: Tracked, es: seq<Event>)
    requires Valid(t.s.q)
    decreases |es|
  {
    es != [] ==> Legal(t.s, es[0]) && HonestPeer(t, es[0]) && FreshId(t, es[0]) && GoodRun(Track(t, es[0]), es[1..])
  }

  function TrackAll(t: Tracked, es: seq<Event>): (r: Tracked)
    requires Valid(t.s.q)
    ensures Valid(r.s.q)
    decreases |es|
  {
    if es == [] then t else TrackAll(Track(t, es[0]), es[1..])
  }

  lemma {:induction false} RunKeeps(t: Tracked, es: seq<Event>)
    requires Inv(t) && Distinct(t.ids) && RepliesMatch(t.s.log) && GoodRun(t, es)
    ensures var r := TrackAll(t, es); Inv(r) && Distinct(r.ids) && RepliesMatch(r.s.log)
    decreases |es|
  {
    if es == [] {
    } else {
      StepKeeps(t, es[0]);
      assert Distinct(Track(t, es[0]).ids);
      RunKeeps(Track(t, es[0]), es[1..]);
    }
  }

  function Started(limit: nat): (t: Tracked) { Tracked(Init(false, limit), map[]) }

  /** In every run in which no id is used twice: every reply so far completed the request it answered,
      and the reply to any message completes exactly that message while it is held and touches nothing
      once it is finished, however late it comes and however often. */
  lemma LateReply(limit: nat, es: seq<Event>, a: nat, push: bool)
    requires GoodRun(Started(limit), es)
    requires a in TrackAll(Started(limit), es).ids
    ensures var t := TrackAll(Started(limit), es);
            && RepliesMatch(t.s.log)
            && RightReply(t, a, push)
            && (IsFinished(t.s, a) ==> FinishParallel(t.s, t.ids[a], a, push) == t.s)
  {
    InitLedger(false, limit);
    RunKeeps(Started(limit), es);
    var t := TrackAll(Started(limit), es);
    RightWhenAlone(t, a, push);
    if IsHeld(t.s, a) {
      HeldUnderOwnId(t, a);
    }
  }

  /** A second copy of a reply, straight after the first, changes nothing. */
  lemma ReplyOnce(t: Tracked, a: nat, push: bool)
    requires Inv(t) && a in t.ids && IsHeld(t.s, a) && t.ids[a] != 0
    ensures var r := FinishParallel(t.s, t.ids[a], a, push);
            r.log == t.s.log + [Done(a, Replied(a))] && FinishParallel(r, t.ids[a], a, push) == r
  {
    HeldUnderOwnId(t, a);
  }

  // ----- Generated ids are fresh until the counter wraps -----

  ghost predicate OnlyGenerated(es: seq<Event>) {
    forall i :: 0 <= i < |es| && es[i].Submit? ==> es[i].rpcId == None
  }

  ghost predicate LegalHonest(t: Tracked, es: seq<Event>)
    requires Valid(t.s.q)
    decreases |es|
  {
    es != [] ==> Legal(t.s, es[0]) && HonestPeer(t, es[0]) && LegalHonest(Track(t, es[0]), es[1..])
  }

  /** The counter is ahead of every id given so far. */
  ghost predicate Ahead(t: Tracked) {
    forall a :: a in t.ids ==> 0 < t.ids[a] <= t.s.q.uniq
  }

  lemma StepUniq(s: State, e: Event)
    requires Valid(s.q) && !s.serial
    ensures Step(s, e).q.uniq == if GetsId(s, e) && e.rpcId == None then NextId(s.q.uniq) else s.q.uniq
  {
  }

  lemma {:induction false} GeneratedIdsAreFresh(t: Tracked, es: seq<Event>)
    requires Valid(t.s.q) && !t.s.serial && Ahead(t) && OnlyGenerated(es) && LegalHonest(t, es)
    requires t.s.q.uniq + |es| < ID_LIMIT
    ensures GoodRun(t, es)
    decreases |es|
  {
    if es == [] {
    } else {
      StepUniq(t.s, es[0]);
      StepParallelSerial(t.s, es[0]);
      GeneratedIdsAreFresh(Track(t, es[0]), es[1..]);
    }
  }

  /** Without rpc_call, and for the first 2^32 - 1 events, no assumption on ids is needed. */
  lemma GeneratedRepliesMatch(limit: nat, es: seq<Event>)
    requires OnlyGenerated(es) && LegalHonest(Started(limit), es) && |es| < ID_LIMIT
    ensures RepliesMatch(TrackAll(Started(limit), es).s.log)
  {
    GeneratedIdsAreFresh(Started(limit), es);
    InitLedger(false, limit);
    RunKeeps(Started(limit), es);
  }

  // ----- An id used twice -----

  /** Two rpc_calls with the same id: the second is sent before its push fails, and the reply to it
      completes the first. */
  lemma ReusedIdMispairs()
    ensures var s0 := Init(false, 10);
            var s1 := Step(s0, Submit(1, SyncCall, Some(5), 100, Ok));
            var s2 := Step(s1, Submit(2, SyncCall, Some(5), 100, Ok));
            Step(s2, Reply(5, 2, false)).log == [Done(2, DuplicateId), Done(1, Replied(2))]
  {
    var s0 := Init(false, 10);
    var s1 := Step(s0, Submit(1, SyncCall, Some(5), 100, Ok));
    assert s1.q.data == map[5 := Item(Message(1, SyncCall, 5), 100, true)] && s1.log == [] && s1.q.send == [];
    var s2 := Step(s1, Submit(2, SyncCall, Some(5), 100, Ok));
    assert s2.q.data == s1.q.data && s2.log == [Done(2, DuplicateId)];
  }
}
