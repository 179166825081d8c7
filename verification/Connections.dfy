/** When an adapter gives its connection up, and which replies are server pushes. */
module Connections {
  import opened Basics
  import opened TimeoutQueue
  import opened RequestLifecycle
  import opened LifecycleRuns
  import opened SendOrder
  import Deadlines

  predicate Broken(o: Outcome) { o == Error || o == Throw }

  /** Sending goes well up to a request whose sending fails. */
  predicate FlushBreaks(os: seq<Outcome>, waiting: nat) {
    exists i :: 0 <= i < |os| && i < waiting && Broken(os[i]) && forall j :: 0 <= j < i ==> os[j] == Ok
  }

  /** What makes the adapter give the connection up: a send that fails, a server push nobody takes, a timed-out request
      that was in flight or shields the node, and the peer closing. */
  ghost predicate GivesUp(s: State, e: Event) {
    match e
    case Submit(_, _, _, _, o) => SendsAtOnce(s, e) && Broken(o)
    case Flush(os) =>
      if !s.serial then FlushBreaks(os, |s.q.send|)
      else os != [] && s.requestMsg == None && s.q.send != [] && Broken(os[0])
    case Reply(id, _, pushCallback) => !s.serial && id == 0 && !pushCallback
    case Timeouts(now, shield) => exists id :: Deadlines.Breaks(s, now, shield, id)
    case Closed => true
  }

  lemma BreaksLater(os: seq<Outcome>, waiting: nat)
    requires os != [] && waiting > 0
    ensures FlushBreaks(os, waiting) <==> if os[0] == Ok then FlushBreaks(os[1..], waiting - 1) else Broken(os[0])
  {
    if os[0] == Ok {
      if FlushBreaks(os, waiting) {
        var i :| 0 <= i < |os| && i < waiting && Broken(os[i]) && forall j :: 0 <= j < i ==> os[j] == Ok;
        assert os[1..][i - 1] == os[i] && forall j :: 0 <= j < i - 1 ==> os[1..][j] == os[j + 1];
      }
      if FlushBreaks(os[1..], waiting - 1) {
        var i :| 0 <= i < |os[1..]| && i < waiting - 1 && Broken(os[1..][i]) && forall j :: 0 <= j < i ==> os[1..][j] == Ok;
        assert os[i + 1] == os[1..][i] && forall j :: 0 <= j < i + 1 ==> os[j] == if j == 0 then Ok else os[1..][j - 1];
      }
    }
  }

  lemma {:induction false} FlushEpoch(s: State, os: seq<Outcome>)
    requires Valid(s.q)
    ensures var r := DoInvokeParallel(s, os);
            r.epoch == s.epoch + (if FlushBreaks(os, |s.q.send|) then 1 else 0)
            && r.wire == (if r.epoch > s.epoch then [] else s.wire) && r.pushes == s.pushes
    decreases |os|
  {
    hide Valid, FlushBreaks, Sent, OneWays;
    if s.q.send == [] || os == [] {
      NothingBreaks(os, |s.q.send|);
    } else {
      BreaksLater(os, |s.q.send|);
      if os[0] == Ok {
        SendsOldest(s, Ok);
        FlushEpoch(SendNext(s, Ok), os[1..]);
      }
    }
  }

  lemma NothingBreaks(os: seq<Outcome>, waiting: nat)
    requires os == [] || waiting == 0
    ensures !FlushBreaks(os, waiting)
  {
  }

  lemma PushEpoch(s: State, msg: Message, deadline: int, hasSend: bool)
    requires Valid(s.q)
    ensures var r := PushOrFail(s, msg, deadline, hasSend); r.epoch == s.epoch && r.pushes == s.pushes
  {
  }

  lemma SerialSubmitEpoch(s: State, token: nat, kind: Kind, deadline: int, o: Outcome)
    requires Valid(s.q) && kind != OneWay
    ensures var r := InvokeSerial(s, token, kind, deadline, o);
            && r.epoch == s.epoch + (if s.q.send == [] && s.requestMsg == None && Broken(o) then 1 else 0)
            && (r.epoch > s.epoch ==> r.wire == []) && r.pushes == s.pushes
  {
    hide PushOrFail;
    var id := NextId(s.q.uniq);
    var t, msg := s.(q := s.q.(uniq := id)), Message(token, kind, id);
    PushEpoch(t.(wire := s.wire + [token]), msg, deadline, true);
    PushEpoch(t, msg, deadline, false);
  }

  lemma ParallelSubmitEpoch(s: State, msg: Message, deadline: int, o: Outcome)
    requires Valid(s.q)
    ensures var r := InvokeParallel(s, msg, deadline, o);
            && r.epoch == s.epoch + (if s.q.send == [] && Broken(o) then 1 else 0)
            && (r.epoch > s.epoch ==> r.wire == []) && r.pushes == s.pushes
  {
    hide PushOrFail;
    PushEpoch(s, msg, deadline, true);
    PushEpoch(s, msg, deadline, false);
  }

  lemma SubmitEpoch(s: State, e: Event)
    requires Valid(s.q) && e.Submit? && (s.serial ==> e.kind != OneWay)
    ensures var r := Step(s, e);
            r.epoch == s.epoch + (if GivesUp(s, e) then 1 else 0) && (r.epoch > s.epoch ==> r.wire == []) && r.pushes == s.pushes
  {
    hide Valid, InvokeSerial, InvokeParallel;
    AdmitAccepts(s, e);
    var u := Admit(s, e);
    if |s.q.send| <= s.limit {
      if s.serial {
        SerialSubmitEpoch(u, e.token, e.kind, e.deadline, e.o);
        assert Step(s, e) == InvokeSerial(u, e.token, e.kind, e.deadline, e.o);
      } else {
        var msg := Message(e.token, e.kind, if e.rpcId == None then u.q.uniq else e.rpcId.value);
        ParallelSubmitEpoch(u, msg, e.deadline, e.o);
        assert Step(s, e) == InvokeParallel(u, msg, e.deadline, e.o);
      }
    }
  }

  lemma {:induction false} TimeoutPushes(s: State, now: int, shield: nat -> bool)
    requires Valid(s.q)
    ensures DoTimeout(s, now, shield).pushes == s.pushes
    decreases |s.q.data|
  {
    hide Valid, Erase;
    if !Expired(s.q, now) {
    } else {
      var id := s.q.time[0];
      FirstIsHeld(s.q);
      ExpireShrinks(s, id);
      TimeoutPushes(Expire(s, id, shield(s.q.data[id].msg.token)), now, shield);
    }
  }

  /** The connection is given up exactly then, and owes nothing afterwards; a push is dispatched for every reply with id
      zero that has a callback to go to. */
  lemma StepGivesUp(s: State, e: Event)
    requires Valid(s.q) && (s.serial && e.Submit? ==> e.kind != OneWay)
    ensures var r := Step(s, e);
            && r.epoch >= s.epoch && (r.epoch > s.epoch <==> GivesUp(s, e)) && (GivesUp(s, e) ==> r.wire == [])
            && r.pushes == s.pushes + if !s.serial && e.Reply? && e.id == 0 && e.pushCallback then 1 else 0
  {
    hide Valid, Erase, MarkSent, Push, FlushBreaks, Deadlines.Breaks;
    match e
    case Submit(_, _, _, _, _) => SubmitEpoch(s, e);
    case Flush(os) => if !s.serial { FlushEpoch(s, os); }
    case Reply(_, _, _) =>
    case Timeouts(now, shield) =>
      Deadlines.TimeoutConnection(s, now, shield);
      TimeoutPushes(s, now, shield);
    case Closed =>
  }

  ghost predicate Steady(s: State, es: seq<Event>)
    requires Valid(s.q)
    decreases |es|
  {
    es != [] ==> !GivesUp(s, es[0]) && Steady(Step(s, es[0]), es[1..])
  }

  function PushesIn(es: seq<Event>): (n: nat) {
    if es == [] then 0
    else (if es[0].Reply? && es[0].id == 0 && es[0].pushCallback then 1 else 0) + PushesIn(es[1..])
  }

  lemma StepMode(s: State, e: Event)
    requires Valid(s.q)
    ensures Step(s, e).serial == s.serial
  {
    hide Valid, Erase, MarkSent, Push;
  }

  /** Over every run an adapter is still on its first connection if and only if no event gave it up, and in parallel
      mode it has dispatched every push that had a callback. */
  lemma {:induction false} RunConnection(s: State, es: seq<Event>)
    requires Valid(s.q) && LegalRun(s, es)
    ensures var r := Exec(s, es);
            && r.epoch >= s.epoch && (r.epoch == s.epoch <==> Steady(s, es))
            && r.pushes == s.pushes + if s.serial then 0 else PushesIn(es)
    decreases |es|
  {
    hide Step, GivesUp;
    if es == [] {
    } else {
      OnlyLegal(s, es[0]);
      StepMode(s, es[0]);
      StepGivesUp(s, es[0]);
      RunConnection(Step(s, es[0]), es[1..]);
    }
  }
}
