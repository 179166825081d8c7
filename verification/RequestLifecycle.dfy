/** The life of a request inside one AdapterProxy, as the state the net thread changes step by step.

    The ledger (accepted, log, dropped) is history: which messages were handed in and how each was
    finished; the epoch counts the connections given up and `pushes` the server pushes dispatched.
    The wire, kept in serial mode, holds the requests the current connection still has to
    answer. */
module RequestLifecycle {
  import opened Basics
  import opened TimeoutQueue

  /** What TC_Transceiver::sendRequest does: four return codes, or an exception after a hard socket error. */
  datatype Outcome = Ok | Full | NotSend | Error | Throw

  datatype How =
    | Replied(answers: nat)  // completed by a reply; `answers` is the request the peer answered
    | TimedOut
    | SendFailed
    | Overloaded
    | DuplicateId
    | OneWaySent

  datatype Done = Done(token: nat, how: How)

  datatype State = State(
    serial: bool,
    limit: nat,
    q: Queue,
    requestMsg: Option<Message>,
    wire: seq<nat>,
    accepted: set<nat>,
    log: seq<Done>,
    dropped: set<nat>,
    aborted: bool,
    epoch: nat,
    pushes: nat)

  function Init(serial: bool, limit: nat): (s: State) {
    State(serial, limit, EMPTY, None, [], {}, [], {}, false, 0, 0)
  }

  // ----- Elementary changes -----

  function Finish(s: State, token: nat, how: How): (r: State) {
    s.(log := s.log + [Done(token, how)])
  }

  /** A closed connection owes no answers; whatever connects next starts with an empty wire. */
  function Close(s: State): (r: State) {
    s.(wire := [], epoch := s.epoch + 1)
  }

  function PushOrFail(s: State, msg: Message, deadline: int, hasSend: bool): (r: State)
    requires Valid(s.q)
    ensures Valid(r.q) && r.serial == s.serial
  {
    var (q, ok) := Push(s.q, msg, deadline, hasSend);
    if ok then s.(q := q) else Finish(s, msg.token, DuplicateId)
  }

  // ----- invoke -----

  function InvokeSerial(s: State, token: nat, kind: Kind, deadline: int, o: Outcome): (r: State)
    requires Valid(s.q)
    ensures Valid(r.q) && r.serial == s.serial
  {
    if kind == OneWay then s.(aborted := true)
    else
      var id := NextId(s.q.uniq);
      var msg := Message(token, kind, id);
      var t := s.(q := s.q.(uniq := id));
      if s.requestMsg == None && s.q.send == [] && o != NotSend then
        if o == Error then Finish(Close(t), token, SendFailed)
        else if o == Throw then Close(t).(dropped := s.dropped + {token})
        else
          var u := PushOrFail(t.(wire := s.wire + [token]), msg, deadline, true);
          u.(requestMsg := if id in s.q.data then None else Some(msg))
      else PushOrFail(t, msg, deadline, false)
  }

  function InvokeParallel(s: State, msg: Message, deadline: int, o: Outcome): (r: State)
    requires Valid(s.q)
    ensures Valid(r.q) && r.serial == s.serial
  {
    if s.q.send == [] && o != NotSend then
      if o == Error then Finish(Close(s), msg.token, SendFailed)
      else if o == Throw then Close(s).(dropped := s.dropped + {msg.token})
      else if msg.kind == OneWay then Finish(s, msg.token, OneWaySent)
      else PushOrFail(s, msg, deadline, true)
    else PushOrFail(s, msg, deadline, false)
  }

  /** AdapterProxy::invoke; a message from rpc_call brings its own id. */
  function Invoke(s: State, token: nat, kind: Kind, rpcId: Option<Id>, deadline: int, o: Outcome): (r: State)
    requires Valid(s.q)
    ensures Valid(r.q) && r.serial == s.serial
  {
    var t := s.(accepted := s.accepted + {token});
    if |s.q.send| > s.limit then Finish(t, token, Overloaded)
    else
      var u := if rpcId == None then t.(q := t.q.(uniq := NextId(t.q.uniq))) else t;
      if s.serial then InvokeSerial(u, token, kind, deadline, o)
      else
        var id := match rpcId case Some(x) => x case None => u.q.uniq;
        InvokeParallel(u, Message(token, kind, id), deadline, o)
  }

  // ----- doInvoke -----

  function DoInvokeSerial(s: State, o: Outcome): (r: State)
    requires Valid(s.q)
    ensures Valid(r.q) && r.serial == s.serial && r.accepted == s.accepted
  {
    if s.requestMsg != None || s.q.send == [] then s
    else
      assert s.q.send[0] in s.q.send;
      var msg := s.q.data[s.q.send[0]].msg;
      if o == NotSend then s
      else if o == Throw then Close(s)
      else if o == Error then
        Finish(Close(s).(requestMsg := None, q := Erase(s.q, s.q.send[0])), msg.token, SendFailed)
      else s.(requestMsg := Some(msg), q := MarkSent(s.q), wire := s.wire + [msg.token])
  }

  /** One turn of the sending loop of doInvoke_parallel. */
  function SendNext(s: State, o: Outcome): (r: State)
    requires Valid(s.q) && s.q.send != []
    ensures Valid(r.q) && r.aborted == s.aborted && r.serial == s.serial && r.accepted == s.accepted && r.q.uniq == s.q.uniq
  {
    assert s.q.send[0] in s.q.send;
    var msg := s.q.data[s.q.send[0]].msg;
    if o == NotSend then s
    else if o == Error || o == Throw then Close(s)
    else if msg.kind == OneWay then Finish(s.(q := Erase(s.q, s.q.send[0])), msg.token, OneWaySent)
    else s.(q := MarkSent(s.q))
  }

  /** doInvoke_parallel: goes on while sends succeed completely. */
  function DoInvokeParallel(s: State, os: seq<Outcome>): (r: State)
    requires Valid(s.q)
    ensures Valid(r.q) && r.aborted == s.aborted && r.serial == s.serial && r.accepted == s.accepted && r.q.uniq == s.q.uniq
    decreases |os|
  {
    if s.q.send == [] || os == [] then s
    else if os[0] == Ok then DoInvokeParallel(SendNext(s, Ok), os[1..])
    else SendNext(s, os[0])
  }

  lemma FlushTurn(s: State, os: seq<Outcome>, i: nat)
    requires Valid(s.q) && s.q.send != [] && i < |os|
    ensures DoInvokeParallel(s, os[i..]) ==
            if os[i] == Ok then DoInvokeParallel(SendNext(s, Ok), os[i + 1..]) else SendNext(s, os[i])
  {
    assert os[i..][1..] == os[i + 1..];
  }

  // ----- Replies -----

  /** finishInvoke_serial: the reply carries no usable id, so it is paired with `_requestMsg`.
      The asserts of the source abort the process when they fail. */
  function FinishSerial(s: State, answers: nat): (r: State)
    requires Valid(s.q)
    ensures Valid(r.q) && r.serial == s.serial && r.accepted == s.accepted
  {
    match s.requestMsg
    case None => s
    case Some(msg) =>
      if msg.id !in s.q.data || s.q.data[msg.id].msg != msg || msg.kind == OneWay || IsFinished(s, msg.token)
      then s.(aborted := true)
      else Finish(s.(requestMsg := None, q := Erase(s.q, msg.id)), msg.token, Replied(answers))
  }

  /** finishInvoke_parallel: pairing by id.  Id zero is a server push, which belongs to no request; it
      goes to the push callback, and without one the exception ends the connection. */
  function FinishParallel(s: State, id: Id, answers: nat, pushCallback: bool): (r: State)
    requires Valid(s.q)
    ensures Valid(r.q) && r.serial == s.serial && r.accepted == s.accepted && r.q.uniq == s.q.uniq
  {
    if id == 0 then (if pushCallback then s.(pushes := s.pushes + 1) else Close(s))
    else if id !in s.q.data then s
    else if IsFinished(s, s.q.data[id].msg.token) then s.(aborted := true)
    else Finish(s.(q := Erase(s.q, id)), s.q.data[id].msg.token, Replied(answers))
  }

  // ----- Timeouts -----

  /** A timed-out request leaves the queue; one that is in flight takes its connection with it. */
  function Withdraw(s: State, id: Id): (r: State)
    requires Valid(s.q) && id in s.q.data
    ensures r.q == Erase(s.q, id) && Valid(r.q)
  {
    var t := s.(q := Erase(s.q, id));
    if s.requestMsg == Some(s.q.data[id].msg) then Close(t).(requestMsg := None) else t
  }

  /** One turn of doTimeout on the request `id`; `shield` says whether finishing the message makes
      the circuit breaker close the connection. */
  function Expire(s: State, id: Id, shield: bool): (r: State)
    requires Valid(s.q) && id in s.q.data
    ensures Valid(r.q) && r.q == Erase(s.q, id) && r.aborted == s.aborted && r.serial == s.serial && r.accepted == s.accepted && r.q.uniq == s.q.uniq
    ensures r.log == s.log + [Done(s.q.data[id].msg.token, TimedOut)]
  {
    var v := Finish(Withdraw(s, id), s.q.data[id].msg.token, TimedOut);
    if shield then Close(v) else v
  }

  lemma ExpireShrinks(s: State, id: Id)
    requires Valid(s.q) && id in s.q.data
    ensures |Erase(s.q, id).data| < |s.q.data|
  {
    assert s.q.data.Keys == Erase(s.q, id).data.Keys + {id};
  }

  lemma FirstIsHeld(q: Queue)
    requires Valid(q) && q.time != []
    ensures q.time[0] in q.data
  {
    assert q.time[0] in q.time;
  }

  function DoTimeout(s: State, now: int, shield: nat -> bool): (r: State)
    requires Valid(s.q)
    ensures Valid(r.q) && !Expired(r.q, now) && r.aborted == s.aborted && r.serial == s.serial && r.accepted == s.accepted && r.q.uniq == s.q.uniq
    decreases |s.q.data|
  {
    if !Expired(s.q, now) then s
    else
      var id := s.q.time[0];
      FirstIsHeld(s.q);
      ExpireShrinks(s, id);
      DoTimeout(Expire(s, id, shield(s.q.data[id].msg.token)), now, shield)
  }

  // ----- The ledger -----

  predicate IsFinished(s: State, token: nat) {
    exists i :: 0 <= i < |s.log| && s.log[i].token == token
  }

  ghost predicate IsHeld(s: State, token: nat) {
    exists id :: id in s.q.data && s.q.data[id].msg.token == token
  }

  ghost predicate IsUnsent(s: State, token: nat) {
    exists id :: id in s.q.data && s.q.data[id].msg.token == token && !s.q.data[id].hasSend
  }

  ghost predicate IsWaiting(s: State, token: nat) {
    exists id :: id in s.q.data && s.q.data[id].msg.token == token && s.q.data[id].hasSend
  }

  /** Every accepted message is held, finished or dropped, and never two of these or one twice. */
  ghost predicate Ledger(s: State) {
    && Valid(s.q)
    && (forall id :: id in s.q.data ==>
          var t := s.q.data[id].msg.token; t in s.accepted && t !in s.dropped && !IsFinished(s, t))
    && (forall i, j :: i in s.q.data && j in s.q.data && i != j ==> s.q.data[i].msg.token != s.q.data[j].msg.token)
    && (forall i, j :: 0 <= i < j < |s.log| ==> s.log[i].token != s.log[j].token)
    && (forall i :: 0 <= i < |s.log| ==> s.log[i].token in s.accepted && s.log[i].token !in s.dropped)
    && s.dropped <= s.accepted
    && (forall t :: t in s.accepted ==> t in s.dropped || IsFinished(s, t) || IsHeld(s, t))
  }

  // ----- The ways a step can move a message -----

  datatype Move =
    | Nothing
    | FinishNew(token: nat, how: How)
    | HoldNew(msg: Message, deadline: int, hasSend: bool)
    | DropNew(token: nat)
    | FinishHeld(id: Id, how: How)
    | MarkHeld

  /** `r` is `s` after the move `v`, as far as the ledger is concerned. */
  ghost predicate Moves(s: State, r: State, v: Move) {
    match v
    case Nothing =>
      r.q.data == s.q.data && r.accepted == s.accepted && r.log == s.log && r.dropped == s.dropped
    case FinishNew(token, how) =>
      r.q.data == s.q.data && r.accepted == s.accepted + {token} && r.log == s.log + [Done(token, how)] && r.dropped == s.dropped
    case HoldNew(msg, deadline, hasSend) =>
      msg.id !in s.q.data && r.q.data == s.q.data[msg.id := Item(msg, deadline, hasSend)]
      && r.accepted == s.accepted + {msg.token} && r.log == s.log && r.dropped == s.dropped
    case DropNew(token) =>
      r.q.data == s.q.data && r.accepted == s.accepted + {token} && r.log == s.log && r.dropped == s.dropped + {token}
    case FinishHeld(id, how) =>
      id in s.q.data && r.q.data == s.q.data - {id} && r.accepted == s.accepted
      && r.log == s.log + [Done(s.q.data[id].msg.token, how)] && r.dropped == s.dropped
    case MarkHeld =>
      r.q.data.Keys == s.q.data.Keys
      && (forall id :: id in s.q.data ==> r.q.data[id].msg == s.q.data[id].msg && r.q.data[id].deadline == s.q.data[id].deadline)
      && r.accepted == s.accepted && r.log == s.log && r.dropped == s.dropped
  }

  /** A message enters the ledger once. */
  ghost predicate Fresh(s: State, v: Move) {
    match v
    case FinishNew(token, _) => token !in s.accepted
    case HoldNew(msg, _, _) => msg.token !in s.accepted
    case DropNew(token) => token !in s.accepted
    case _ => true
  }

  lemma FinishedSnoc(s: State, r: State, d: Done)
    requires r.log == s.log + [d]
    ensures forall t :: IsFinished(r, t) <==> IsFinished(s, t) || t == d.token
  {
    forall t ensures IsFinished(r, t) <==> IsFinished(s, t) || t == d.token {
      if IsFinished(s, t) {
        var i :| 0 <= i < |s.log| && s.log[i].token == t;
        assert r.log[i].token == t;
      }
      assert r.log[|s.log|] == d;
    }
  }

  lemma LedgerFinishNew(s: State, r: State, v: Move)
    requires Ledger(s) && Valid(r.q) && Moves(s, r, v) && Fresh(s, v) && v.FinishNew?
    ensures Ledger(r)
  {
    FinishedSnoc(s, r, Done(v.token, v.how));
    forall t | t in r.accepted ensures t in r.dropped || IsFinished(r, t) || IsHeld(r, t) {
      if t != v.token { assert IsHeld(s, t) ==> IsHeld(r, t); }
    }
  }

  lemma LedgerHoldNew(s: State, r: State, v: Move)
    requires Ledger(s) && Valid(r.q) && Moves(s, r, v) && Fresh(s, v) && v.HoldNew?
    ensures Ledger(r)
  {
    forall t ensures IsFinished(s, t) == IsFinished(r, t) {}
    assert r.q.data[v.msg.id].msg.token == v.msg.token;
    forall t | t in r.accepted ensures t in r.dropped || IsFinished(r, t) || IsHeld(r, t) {
      if t != v.msg.token && IsHeld(s, t) {
        var id :| id in s.q.data && s.q.data[id].msg.token == t;
        assert r.q.data[id].msg.token == t;
      }
    }
  }

  lemma LedgerFinishHeld(s: State, r: State, v: Move)
    requires Ledger(s) && Valid(r.q) && Moves(s, r, v) && v.FinishHeld?
    ensures Ledger(r)
  {
    var token := s.q.data[v.id].msg.token;
    FinishedSnoc(s, r, Done(token, v.how));
    forall i | 0 <= i < |s.log| ensures s.log[i].token != token {
      assert !IsFinished(s, token);
    }
    forall t | t in r.accepted ensures t in r.dropped || IsFinished(r, t) || IsHeld(r, t) {
      if t != token && IsHeld(s, t) {
        var j :| j in s.q.data && s.q.data[j].msg.token == t;
        assert j in r.q.data;
      }
    }
  }

  lemma LedgerQuiet(s: State, r: State, v: Move)
    requires Ledger(s) && Valid(r.q) && Moves(s, r, v) && (v.Nothing? || v.MarkHeld?)
    ensures Ledger(r)
  {
    forall t ensures IsFinished(s, t) == IsFinished(r, t) {}
    forall t | IsHeld(s, t) ensures IsHeld(r, t) {
      var j :| j in s.q.data && s.q.data[j].msg.token == t;
      assert r.q.data[j].msg.token == t;
    }
  }

  lemma LedgerDropNew(s: State, r: State, v: Move)
    requires Ledger(s) && Valid(r.q) && Moves(s, r, v) && Fresh(s, v) && v.DropNew?
    ensures Ledger(r)
  {
    forall t ensures IsFinished(s, t) == IsFinished(r, t) && IsHeld(s, t) == IsHeld(r, t) {}
  }

  /** Each move keeps the ledger. */
  lemma MoveKeepsLedger(s: State, r: State, v: Move)
    requires Ledger(s) && Valid(r.q) && Moves(s, r, v) && Fresh(s, v)
    ensures Ledger(r)
    ensures s.log <= r.log
    ensures r.dropped == s.dropped + (if v.DropNew? then {v.token} else {})
  {
    match v
    case FinishNew(_, _) => LedgerFinishNew(s, r, v);
    case HoldNew(_, _, _) => LedgerHoldNew(s, r, v);
    case DropNew(_) => LedgerDropNew(s, r, v);
    case FinishHeld(_, _) => LedgerFinishHeld(s, r, v);
    case _ => LedgerQuiet(s, r, v);
  }
}
