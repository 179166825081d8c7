/** Whole runs of one AdapterProxy: what every step keeps, and what that means for each message. */
module LifecycleRuns {
  import opened Basics
  import opened TimeoutQueue
  import opened RequestLifecycle

  datatype Event =
    | Submit(token: nat, kind: Kind, rpcId: Option<Id>, deadline: int, o: Outcome)
    | Flush(os: seq<Outcome>)
    | Reply(id: Id, answers: nat, pushCallback: bool)
    | Timeouts(now: int, shield: nat -> bool)
    | Closed

  /** A message is handed in once.  In serial mode nobody makes one-way calls and the peer answers
      the requests of the current connection in order. */
  ghost predicate Legal(s: State, e: Event) {
    match e
    case Submit(token, kind, _, _, _) => token !in s.accepted && (s.serial ==> kind != OneWay)
    case Reply(_, answers, _) => s.serial ==> s.wire != [] && answers == s.wire[0]
    case _ => true
  }

  function Step(s: State, e: Event): (r: State)
    requires Valid(s.q)
    ensures Valid(r.q)
  {
    match e
    case Submit(token, kind, rpcId, deadline, o) => Invoke(s, token, kind, rpcId, deadline, o)
    case Flush(os) =>
      if !s.serial then DoInvokeParallel(s, os) else if os == [] then s else DoInvokeSerial(s, os[0])
    case Reply(id, answers, pushCallback) =>
      if !s.serial then FinishParallel(s, id, answers, pushCallback)
      else FinishSerial(if s.wire == [] then s else s.(wire := s.wire[1..]), answers)
    case Timeouts(now, shield) => DoTimeout(s, now, shield)
    case Closed => Close(s)
  }

  /** The one way to lose a message: invoke hands it to sendRequest and sendRequest throws. */
  ghost predicate Loses(s: State, e: Event) {
    e.Submit? && e.o == Throw && s.q.send == [] && (s.serial ==> s.requestMsg == None && e.kind != OneWay)
  }

  // ----- What each step does to the messages -----

  ghost function PushMove(s: State, msg: Message, deadline: int, hasSend: bool): Move {
    if msg.id in s.q.data then FinishNew(msg.token, DuplicateId) else HoldNew(msg, deadline, hasSend)
  }

  ghost function SubmitMove(s: State, msg: Message, deadline: int, o: Outcome): Move {
    if s.q.send != [] || o == NotSend || (s.serial && s.requestMsg != None) then PushMove(s, msg, deadline, false)
    else if o == Error then FinishNew(msg.token, SendFailed)
    else if o == Throw then DropNew(msg.token)
    else if msg.kind == OneWay then FinishNew(msg.token, OneWaySent)
    else PushMove(s, msg, deadline, true)
  }

  /** `t` is `s` after `token` was accepted. */
  ghost predicate Accepting(s: State, t: State, token: nat) {
    && Valid(s.q) && Valid(t.q)
    && t.q.data == s.q.data && t.q.send == s.q.send && t.log == s.log && t.dropped == s.dropped
    && t.accepted == s.accepted + {token} && t.serial == s.serial && t.requestMsg == s.requestMsg
  }

  lemma PushMoves(s: State, t: State, msg: Message, deadline: int, hasSend: bool)
    requires Accepting(s, t, msg.token)
    ensures Moves(s, PushOrFail(t, msg, deadline, hasSend), PushMove(s, msg, deadline, hasSend))
  {
  }

  lemma InvokeParallelMoves(s: State, t: State, msg: Message, deadline: int, o: Outcome)
    requires Accepting(s, t, msg.token) && !s.serial
    ensures Moves(s, InvokeParallel(t, msg, deadline, o), SubmitMove(s, msg, deadline, o))
  {
    PushMoves(s, t, msg, deadline, s.q.send == [] && o != NotSend);
  }

  /** `_requestMsg` plays no part in where the messages are. */
  lemma MovesAnyRequest(s: State, r: State, requestMsg: Option<Message>, m: Move)
    requires Moves(s, r, m)
    ensures Moves(s, r.(requestMsg := requestMsg), m)
  {
  }

  lemma FailedSendMoves(s: State, t: State, token: nat)
    requires Accepting(s, t, token)
    ensures Moves(s, Finish(Close(t), token, SendFailed), FinishNew(token, SendFailed))
    ensures Moves(s, Close(t).(dropped := s.dropped + {token}), DropNew(token))
  {
  }

  lemma SendNowMoves(s: State, t: State, token: nat, kind: Kind, deadline: int, o: Outcome)
    requires Accepting(s, t, token) && s.serial && kind != OneWay
    requires s.requestMsg == None && s.q.send == [] && o != NotSend
    ensures Moves(s, InvokeSerial(t, token, kind, deadline, o),
                  SubmitMove(s, Message(token, kind, NextId(t.q.uniq)), deadline, o))
  {
    hide Moves, PushOrFail, PushMove;
    var id := NextId(t.q.uniq);
    var msg := Message(token, kind, id);
    var u := t.(q := t.q.(uniq := id));
    FailedSendMoves(s, u, token);
    var v := PushOrFail(u.(wire := t.wire + [token]), msg, deadline, true);
    PushMoves(s, u.(wire := t.wire + [token]), msg, deadline, true);
    MovesAnyRequest(s, v, if id in t.q.data then None else Some(msg), PushMove(s, msg, deadline, true));
  }

  lemma InvokeSerialMoves(s: State, t: State, token: nat, kind: Kind, deadline: int, o: Outcome)
    requires Accepting(s, t, token) && s.serial && kind != OneWay
    ensures Moves(s, InvokeSerial(t, token, kind, deadline, o),
                  SubmitMove(s, Message(token, kind, NextId(t.q.uniq)), deadline, o))
  {
    hide Moves, PushOrFail, PushMove;
    if s.requestMsg == None && s.q.send == [] && o != NotSend {
      SendNowMoves(s, t, token, kind, deadline, o);
    } else {
      var id := NextId(t.q.uniq);
      PushMoves(s, t.(q := t.q.(uniq := id)), Message(token, kind, id), deadline, false);
    }
  }

  ghost function InvokeMove(s: State, e: Event): Move
    requires e.Submit?
  {
    var u := if e.rpcId == None then NextId(s.q.uniq) else s.q.uniq;
    var id := if s.serial then NextId(u) else if e.rpcId == None then u else e.rpcId.value;
    if |s.q.send| > s.limit then FinishNew(e.token, Overloaded)
    else SubmitMove(s, Message(e.token, e.kind, id), e.deadline, e.o)
  }

  /** The state in which invoke picks the mode: the message is accepted and an id may be generated. */
  function Admit(s: State, e: Event): (u: State)
    requires e.Submit?
  {
    var t := s.(accepted := s.accepted + {e.token});
    if e.rpcId == None then t.(q := t.q.(uniq := NextId(t.q.uniq))) else t
  }

  lemma AdmitAccepts(s: State, e: Event)
    requires Valid(s.q) && e.Submit?
    ensures Accepting(s, Admit(s, e), e.token)
  {
  }

  lemma InvokeMoves(s: State, e: Event)
    requires Valid(s.q) && e.Submit? && (s.serial ==> e.kind != OneWay)
    ensures Moves(s, Step(s, e), InvokeMove(s, e))
  {
    AdmitAccepts(s, e);
    var u := Admit(s, e);
    if |s.q.send| <= s.limit {
      if s.serial {
        InvokeSerialMoves(s, u, e.token, e.kind, e.deadline, e.o);
        assert Step(s, e) == InvokeSerial(u, e.token, e.kind, e.deadline, e.o);
      } else {
        var msg := Message(e.token, e.kind, if e.rpcId == None then u.q.uniq else e.rpcId.value);
        InvokeParallelMoves(s, u, msg, e.deadline, e.o);
        assert Step(s, e) == InvokeParallel(u, msg, e.deadline, e.o);
      }
    }
  }

  lemma LossIsDrop(s: State, e: Event)
    requires e.Submit? && (s.serial ==> e.kind != OneWay)
    ensures InvokeMove(s, e).DropNew? <==> Loses(s, e)
    ensures Loses(s, e) ==> InvokeMove(s, e).token == e.token
  {
  }

  lemma MarkMoves(s: State, r: State)
    requires Valid(s.q) && s.q.send != [] && r.q == MarkSent(s.q)
    requires r.accepted == s.accepted && r.log == s.log && r.dropped == s.dropped
    ensures Moves(s, r, MarkHeld)
  {
  }

  lemma EraseMoves(s: State, r: State, id: Id, how: How)
    requires Valid(s.q) && id in s.q.data && r.q == Erase(s.q, id)
    requires r.accepted == s.accepted && r.log == s.log + [Done(s.q.data[id].msg.token, how)] && r.dropped == s.dropped
    ensures Moves(s, r, FinishHeld(id, how))
  {
  }

  lemma OldestIsHeld(q: Queue)
    requires Valid(q) && q.send != []
    ensures q.send[0] in q.data
  {
    assert q.send[0] in q.send;
  }

  ghost function SendMove(s: State, o: Outcome): Move
    requires Valid(s.q) && s.q.send != []
  {
    assert s.q.send[0] in s.q.send;
    if o != Ok && o != Full then Nothing
    else if s.q.data[s.q.send[0]].msg.kind == OneWay then FinishHeld(s.q.send[0], OneWaySent)
    else MarkHeld
  }

  lemma RefusedMoves(s: State, o: Outcome)
    requires Valid(s.q) && s.q.send != [] && o != Ok && o != Full
    ensures Moves(s, SendNext(s, o), Nothing)
  {
  }

  lemma OneWayMoves(s: State, o: Outcome)
    requires Valid(s.q) && s.q.send != [] && (o == Ok || o == Full) && SendMove(s, o).FinishHeld?
    ensures Moves(s, SendNext(s, o), SendMove(s, o))
  {
    OldestIsHeld(s.q);
  }

  lemma SentMoves(s: State, o: Outcome)
    requires Valid(s.q) && s.q.send != [] && (o == Ok || o == Full) && SendMove(s, o) == MarkHeld
    ensures Moves(s, SendNext(s, o), MarkHeld)
  {
    OldestIsHeld(s.q);
    MarkMoves(s, SendNext(s, o));
  }

  lemma SendMoves(s: State, o: Outcome)
    requires Valid(s.q) && s.q.send != []
    ensures Moves(s, SendNext(s, o), SendMove(s, o))
  {
    if o != Ok && o != Full {
      RefusedMoves(s, o);
    } else if SendMove(s, o) == MarkHeld {
      SentMoves(s, o);
    } else {
      OneWayMoves(s, o);
    }
  }

  ghost function SerialSendMove(s: State, o: Outcome): Move
    requires Valid(s.q)
  {
    if s.requestMsg != None || s.q.send == [] || o == NotSend || o == Throw then Nothing
    else if o == Error then FinishHeld(s.q.send[0], SendFailed)
    else MarkHeld
  }

  lemma SerialSendMoves(s: State, o: Outcome)
    requires Valid(s.q)
    ensures Moves(s, DoInvokeSerial(s, o), SerialSendMove(s, o))
  {
    if s.q.send != [] { OldestIsHeld(s.q); }
    match SerialSendMove(s, o)
    case MarkHeld => MarkMoves(s, DoInvokeSerial(s, o));
    case FinishHeld(id, how) => EraseMoves(s, DoInvokeSerial(s, o), id, how);
    case _ =>
  }

  ghost function SerialReplyMove(s: State, answers: nat): Move
    requires Valid(s.q)
  {
    if FinishSerial(s, answers).log == s.log then Nothing
    else FinishHeld(s.requestMsg.value.id, Replied(answers))
  }

  lemma SerialReplyMoves(s: State, answers: nat)
    requires Valid(s.q)
    ensures Moves(s, FinishSerial(s, answers), SerialReplyMove(s, answers))
  {
  }

  ghost function ParallelReplyMove(s: State, id: Id, answers: nat): Move
    requires Valid(s.q)
  {
    if id == 0 || id !in s.q.data || IsFinished(s, s.q.data[id].msg.token) then Nothing
    else FinishHeld(id, Replied(answers))
  }

  lemma ParallelReplyMoves(s: State, id: Id, answers: nat, pushCallback: bool)
    requires Valid(s.q)
    ensures Moves(s, FinishParallel(s, id, answers, pushCallback), ParallelReplyMove(s, id, answers))
  {
  }

  lemma ExpireMoves(s: State, id: Id, shield: bool)
    requires Valid(s.q) && id in s.q.data
    ensures Moves(s, Expire(s, id, shield), FinishHeld(id, TimedOut))
  {
  }

  // ----- The ledger over every step -----

  lemma {:induction false} FlushParallelLedger(s: State, os: seq<Outcome>)
    requires Ledger(s)
    ensures Ledger(DoInvokeParallel(s, os))
    ensures DoInvokeParallel(s, os).dropped == s.dropped && s.log <= DoInvokeParallel(s, os).log
    decreases |os|
  {
    if s.q.send != [] && os != [] {
      SendMoves(s, os[0]);
      MoveKeepsLedger(s, SendNext(s, os[0]), SendMove(s, os[0]));
      if os[0] == Ok { FlushParallelLedger(SendNext(s, Ok), os[1..]); }
    }
  }

  lemma {:induction false} TimeoutLedger(s: State, now: int, shield: nat -> bool)
    requires Ledger(s)
    ensures Ledger(DoTimeout(s, now, shield))
    ensures DoTimeout(s, now, shield).dropped == s.dropped && s.log <= DoTimeout(s, now, shield).log
    decreases |s.q.data|
  {
    if Expired(s.q, now) {
      var id := s.q.time[0];
      FirstIsHeld(s.q);
      var b := shield(s.q.data[id].msg.token);
      ExpireShrinks(s, id);
      ExpireMoves(s, id, b);
      MoveKeepsLedger(s, Expire(s, id, b), FinishHeld(id, TimedOut));
      TimeoutLedger(Expire(s, id, b), now, shield);
    }
  }

  lemma ReplyLedger(s: State, e: Event)
    requires Ledger(s) && e.Reply?
    ensures Ledger(Step(s, e))
    ensures Step(s, e).dropped == s.dropped && s.log <= Step(s, e).log
  {
    if s.serial {
      var t := if s.wire == [] then s else s.(wire := s.wire[1..]);
      MoveKeepsLedger(s, t, Nothing);
      SerialReplyMoves(t, e.answers);
      MoveKeepsLedger(t, FinishSerial(t, e.answers), SerialReplyMove(t, e.answers));
    } else {
      ParallelReplyMoves(s, e.id, e.answers, e.pushCallback);
      MoveKeepsLedger(s, Step(s, e), ParallelReplyMove(s, e.id, e.answers));
    }
  }

  lemma SubmitLedger(s: State, e: Event)
    requires Ledger(s) && Legal(s, e) && e.Submit?
    ensures Ledger(Step(s, e))
    ensures Step(s, e).dropped == s.dropped + (if Loses(s, e) then {e.token} else {})
    ensures s.log <= Step(s, e).log
  {
    InvokeMoves(s, e);
    LossIsDrop(s, e);
    MoveKeepsLedger(s, Step(s, e), InvokeMove(s, e));
  }

  lemma FlushLedger(s: State, os: seq<Outcome>)
    requires Ledger(s)
    ensures Ledger(Step(s, Flush(os)))
    ensures Step(s, Flush(os)).dropped == s.dropped && s.log <= Step(s, Flush(os)).log
  {
    if !s.serial {
      FlushParallelLedger(s, os);
    } else if os != [] {
      SerialSendMoves(s, os[0]);
      MoveKeepsLedger(s, Step(s, Flush(os)), SerialSendMove(s, os[0]));
    }
  }

  /** Every step keeps the ledger, finishes nothing a second time, and loses a message only when
      sendRequest throws inside invoke. */
  lemma StepLedger(s: State, e: Event)
    requires Ledger(s) && Legal(s, e)
    ensures Ledger(Step(s, e))
    ensures Step(s, e).dropped == s.dropped + (if Loses(s, e) then {e.token} else {})
    ensures s.log <= Step(s, e).log
  {
    match e
    case Submit(_, _, _, _, _) => SubmitLedger(s, e);
    case Flush(os) => FlushLedger(s, os);
    case Reply(_, _, _) => ReplyLedger(s, e);
    case Timeouts(now, shield) => TimeoutLedger(s, now, shield);
    case Closed => MoveKeepsLedger(s, Step(s, e), Nothing);
  }

  // ----- Serial mode: replies are paired by order alone -----

  ghost predicate RepliesMatch(log: seq<Done>) {
    forall i :: 0 <= i < |log| && log[i].how.Replied? ==> log[i].how.answers == log[i].token
  }

  /** The current connection owes at most one answer, and owes it to `_requestMsg`; everything else
      the adapter holds is unsent. */
  ghost predicate Paired(s: State) {
    && s.serial && !s.aborted && Valid(s.q)
    && |s.wire| <= 1
    && (s.wire != [] ==> s.requestMsg.Some? && s.wire[0] == s.requestMsg.value.token)
    && (s.requestMsg.Some? ==>
          var m := s.requestMsg.value; m.id in s.q.data && s.q.data[m.id].msg == m && s.q.data[m.id].hasSend)
    && (forall id :: id in s.q.data ==>
          s.q.data[id].msg.kind != OneWay && (s.q.data[id].hasSend ==> s.requestMsg == Some(s.q.data[id].msg)))
    && RepliesMatch(s.log)
  }

  /** With nothing in flight and nothing unsent the queue is empty, so the push after a send cannot fail. */
  lemma IdleIsEmpty(s: State)
    requires Paired(s) && s.requestMsg == None && s.q.send == []
    ensures s.q.data == map[]
  {
    assert forall id :: id in s.q.data ==> id in s.q.send;
  }

  lemma PushPaired(s: State, msg: Message, deadline: int)
    requires Paired(s) && msg.kind != OneWay
    ensures Paired(PushOrFail(s, msg, deadline, false))
  {
  }

  lemma SendAtOncePaired(s: State, msg: Message, deadline: int)
    requires Paired(s) && s.requestMsg == None && s.q.send == [] && msg.kind != OneWay
    ensures var r := PushOrFail(s.(wire := s.wire + [msg.token]), msg, deadline, true);
            msg.id !in s.q.data && Paired(r.(requestMsg := Some(msg)))
  {
    IdleIsEmpty(s);
  }

  lemma InvokeSerialPaired(s: State, token: nat, kind: Kind, deadline: int, o: Outcome)
    requires Paired(s) && kind != OneWay
    ensures Paired(InvokeSerial(s, token, kind, deadline, o))
  {
    var id := NextId(s.q.uniq);
    var msg := Message(token, kind, id);
    var t := s.(q := s.q.(uniq := id));
    assert Paired(t);
    if s.requestMsg == None && s.q.send == [] && o != NotSend {
      if o == Ok || o == Full {
        SendAtOncePaired(t, msg, deadline);
      }
    } else {
      PushPaired(t, msg, deadline);
    }
  }

  lemma FlushPaired(s: State, o: Outcome)
    requires Paired(s)
    ensures Paired(DoInvokeSerial(s, o))
  {
    if s.q.send != [] { assert s.q.send[0] in s.q.send; }
  }

  /** The asserts of finishInvoke_serial hold and the reply completes the request it answers. */
  lemma ReplyPaired(s: State, answers: nat)
    requires Paired(s) && Ledger(s) && s.wire != [] && answers == s.wire[0]
    ensures var r := FinishSerial(s.(wire := s.wire[1..]), answers);
            Paired(r) && r.log == s.log + [Done(answers, Replied(answers))]
  {
    var t := s.(wire := s.wire[1..]);
    assert IsFinished(t, answers) == IsFinished(s, answers);
  }

  lemma ExpirePaired(s: State, id: Id, shield: bool)
    requires Paired(s) && id in s.q.data
    ensures Paired(Expire(s, id, shield))
  {
  }

  lemma {:induction false} TimeoutPaired(s: State, now: int, shield: nat -> bool)
    requires Paired(s)
    ensures Paired(DoTimeout(s, now, shield))
    decreases |s.q.data|
  {
    if Expired(s.q, now) {
      var id := s.q.time[0];
      FirstIsHeld(s.q);
      ExpireShrinks(s, id);
      ExpirePaired(s, id, shield(s.q.data[id].msg.token));
      TimeoutPaired(Expire(s, id, shield(s.q.data[id].msg.token)), now, shield);
    }
  }

  lemma SubmitPaired(s: State, e: Event)
    requires Paired(s) && e.Submit? && e.kind != OneWay
    ensures Paired(Step(s, e))
  {
    var u := Admit(s, e);
    assert Paired(u);
    if |s.q.send| <= s.limit {
      InvokeSerialPaired(u, e.token, e.kind, e.deadline, e.o);
      assert Step(s, e) == InvokeSerial(u, e.token, e.kind, e.deadline, e.o);
    }
  }

  lemma StepPaired(s: State, e: Event)
    requires Paired(s) && Ledger(s) && Legal(s, e)
    ensures Paired(Step(s, e))
  {
    match e
    case Submit(_, _, _, _, _) => SubmitPaired(s, e);
    case Flush(os) => if os != [] { FlushPaired(s, os[0]); }
    case Reply(_, answers, _) => ReplyPaired(s, answers);
    case Timeouts(now, shield) => TimeoutPaired(s, now, shield);
    case Closed =>
  }

  // ----- Whole runs -----

  function Exec(s: State, es: seq<Event>): (r: State)
    requires Valid(s.q)
    ensures Valid(r.q)
    decreases |es|
  {
    if es == [] then s else Exec(Step(s, es[0]), es[1..])
  }

  ghost predicate LegalRun(s: State, es: seq<Event>)
    requires Valid(s.q)
    decreases |es|
  {
    es != [] ==> Legal(s, es[0]) && LegalRun(Step(s, es[0]), es[1..])
  }

  ghost predicate LossFree(s: State, es: seq<Event>)
    requires Valid(s.q)
    decreases |es|
  {
    es != [] ==> !Loses(s, es[0]) && LossFree(Step(s, es[0]), es[1..])
  }

  lemma LossIsNew(s: State, e: Event)
    requires Ledger(s) && Legal(s, e) && Loses(s, e)
    ensures e.token !in s.dropped
  {
  }

  /** Over every run the ledger holds and the log only grows; messages are lost exactly in the runs
      in which some sendRequest throws inside invoke. */
  lemma {:induction false} RunLedger(s: State, es: seq<Event>)
    requires Ledger(s) && LegalRun(s, es)
    ensures Ledger(Exec(s, es))
    ensures s.log <= Exec(s, es).log && s.dropped <= Exec(s, es).dropped
    ensures Exec(s, es).dropped == s.dropped <==> LossFree(s, es)
    decreases |es|
  {
    hide Step, Legal, IsHeld, IsFinished;
    if es == [] {
    } else {
      StepLedger(s, es[0]);
      RunLedger(Step(s, es[0]), es[1..]);
      if Loses(s, es[0]) { LossIsNew(s, es[0]); }
    }
  }

  lemma {:induction false} RunPaired(s: State, es: seq<Event>)
    requires Paired(s) && Ledger(s) && LegalRun(s, es)
    ensures Paired(Exec(s, es))
    decreases |es|
  {
    if es == [] {
    } else {
      StepLedger(s, es[0]);
      StepPaired(s, es[0]);
      RunPaired(Step(s, es[0]), es[1..]);
    }
  }

  /** Serial mode from the start: never more than one request outstanding, that request is
      `_requestMsg`, every reply completed the request it answered, and no assert fired, across
      timeouts, closes and reconnects. */
  lemma SerialReplies(limit: nat, es: seq<Event>)
    requires LegalRun(Init(true, limit), es)
    ensures var s := Exec(Init(true, limit), es);
            && !s.aborted
            && (s.wire == [] || (s.requestMsg.Some? && s.wire == [s.requestMsg.value.token]))
            && RepliesMatch(s.log)
  {
    RunPaired(Init(true, limit), es);
  }

  /** Where an accepted message is: exactly one of unsent, waiting, finished or dropped. */
  lemma ExactlyOnePlace(s: State, t: nat)
    requires Ledger(s) && t in s.accepted
    ensures IsUnsent(s, t) || IsWaiting(s, t) || IsFinished(s, t) || t in s.dropped
    ensures !(IsUnsent(s, t) && IsWaiting(s, t))
    ensures IsUnsent(s, t) || IsWaiting(s, t) ==> !IsFinished(s, t) && t !in s.dropped
    ensures IsFinished(s, t) ==> t !in s.dropped
    ensures IsFinished(s, t) ==> exists i :: 0 <= i < |s.log| && s.log[i].token == t
                                             && forall j :: 0 <= j < |s.log| && s.log[j].token == t ==> j == i
  {
    if IsHeld(s, t) {
      var id :| id in s.q.data && s.q.data[id].msg.token == t;
      assert s.q.data[id].hasSend || !s.q.data[id].hasSend;
    }
  }

  lemma InitLedger(serial: bool, limit: nat)
    ensures Ledger(Init(serial, limit))
  {
  }

  /** From the start, in either mode, every message ever accepted is in exactly one place, and none
      is lost exactly when no sendRequest throws inside invoke. */
  lemma EveryMessageAccounted(serial: bool, limit: nat, es: seq<Event>, t: nat)
    requires LegalRun(Init(serial, limit), es)
    requires t in Exec(Init(serial, limit), es).accepted
    ensures var s := Exec(Init(serial, limit), es);
            && (s.dropped == {} <==> LossFree(Init(serial, limit), es))
            && (s.dropped == {} ==> (IsUnsent(s, t) || IsWaiting(s, t) <==> !IsFinished(s, t)))
  {
    InitLedger(serial, limit);
    RunLedger(Init(serial, limit), es);
    ExactlyOnePlace(Exec(Init(serial, limit), es), t);
  }

  lemma StepParallel(s: State, e: Event)
    requires Ledger(s) && !s.serial && !s.aborted
    ensures !Step(s, e).serial && !Step(s, e).aborted
  {
  }

  lemma {:induction false} ParallelRun(s: State, es: seq<Event>)
    requires Ledger(s) && !s.serial && !s.aborted && LegalRun(s, es)
    ensures !Exec(s, es).aborted
    decreases |es|
  {
    if es == [] {
    } else {
      StepLedger(s, es[0]);
      StepParallel(s, es[0]);
      ParallelRun(Step(s, es[0]), es[1..]);
    }
  }

  /** In parallel mode too no assert ever fires: a request found under a reply's id is unfinished. */
  lemma ParallelNeverAborts(limit: nat, es: seq<Event>)
    requires LegalRun(Init(false, limit), es)
    ensures !Exec(Init(false, limit), es).aborted
  {
    InitLedger(false, limit);
    ParallelRun(Init(false, limit), es);
  }

  /** The loss is real: one call on a fresh adapter whose send throws is neither held nor finished. */
  lemma ThrowLosesMessage(serial: bool, limit: nat, deadline: int)
    ensures var s := Exec(Init(serial, limit), [Submit(7, SyncCall, None, deadline, Throw)]);
            7 in s.accepted && !IsUnsent(s, 7) && !IsWaiting(s, 7) && !IsFinished(s, 7)
  {
    var e := Submit(7, SyncCall, None, deadline, Throw);
    assert [e][1..] == [];
    assert Exec(Init(serial, limit), [e]) == Step(Init(serial, limit), e);
  }

  /** After doTimeout nothing the adapter holds is past its deadline. */
  lemma TimeoutsAreComplete(s: State, now: int, shield: nat -> bool)
    requires Ledger(s)
    ensures forall id :: id in DoTimeout(s, now, shield).q.data ==> DoTimeout(s, now, shield).q.data[id].deadline > now
  {
    NothingExpired(DoTimeout(s, now, shield).q, now);
  }
}
