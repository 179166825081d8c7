/** The methods of AdapterProxy that move requests, written as the source writes them and proved
    against the steps of RequestLifecycle. */
module AdapterConnection {
  import opened Basics
  import opened TimeoutQueue
  import opened RequestLifecycle
  import opened LifecycleRuns
  import opened SendOrder

  class AdapterProxy {
    const serial: bool
    const noSendQueueLimit: nat
    var timeoutQueue: Queue
    var requestMsg: Option<Message>

    // history
    ghost var wire: seq<nat>
    ghost var accepted: set<nat>
    ghost var log: seq<Done>
    ghost var dropped: set<nat>
    ghost var epoch: nat
    ghost var pushes: nat
    ghost var sent: seq<nat>  // what went onto a connection

    ghost function Abs(): State
      reads this
    {
      State(serial, noSendQueueLimit, timeoutQueue, requestMsg, wire, accepted, log, dropped, false, epoch, pushes)
    }

    constructor (serial: bool, limit: nat)
      ensures Abs() == Init(serial, limit) && sent == []
    {
      this.serial, noSendQueueLimit := serial, limit;
      timeoutQueue, requestMsg := EMPTY, None;
      wire, accepted, log, dropped, epoch, pushes, sent := [], {}, [], {}, 0, 0, [];
    }

    /** The transceiver gives the connection up. */
    method CloseConnection()
      modifies this`wire, this`epoch
      ensures Abs() == Close(old(Abs()))
    {
      wire, epoch := [], epoch + 1;
    }

    /** finishInvoke(msg). */
    method Finished(token: nat, ghost how: How)
      modifies this`log
      ensures Abs() == Finish(old(Abs()), token, how)
    {
      log := log + [Done(token, how)];
    }

    /** Pushes the message, or finishes it when its id is already in use. */
    method PushOrFinish(msg: Message, deadline: int, hasSend: bool) returns (bFlag: bool)
      requires Valid(timeoutQueue)
      modifies this`timeoutQueue, this`log
      ensures Abs() == PushOrFail(old(Abs()), msg, deadline, hasSend)
      ensures bFlag <==> msg.id !in old(timeoutQueue.data)
    {
      var (q, ok) := Push(timeoutQueue, msg, deadline, hasSend);
      timeoutQueue, bFlag := q, ok;
      if !bFlag {
        Finished(msg.token, DuplicateId);
      }
    }

    /** The message is on the wire: it becomes `_requestMsg` unless its id is already in use. */
    method SentSerial(msg: Message, deadline: int)
      requires Valid(timeoutQueue)
      modifies this`timeoutQueue, this`requestMsg, this`wire, this`epoch, this`log, this`sent
      ensures sent == old(sent) + [msg.token]
      ensures Abs() == PushOrFail(old(Abs()).(wire := old(wire) + [msg.token]), msg, deadline, true)
                       .(requestMsg := if msg.id in old(timeoutQueue.data) then None else Some(msg))
    {
      wire, sent := wire + [msg.token], sent + [msg.token];
      requestMsg := Some(msg);
      var bFlag := PushOrFinish(msg, deadline, true);
      if !bFlag {
        requestMsg := None;
      }
    }

    lemma NewIdValid(q: Queue, id: Id)
      requires Valid(q)
      ensures Valid(q.(uniq := id))
    {
    }

    method InvokeConnectionSerial(token: nat, kind: Kind, deadline: int, ret: Outcome)
      requires Valid(timeoutQueue) && kind != OneWay
      modifies this`timeoutQueue, this`requestMsg, this`wire, this`epoch, this`log, this`dropped, this`sent
      ensures sent == if old(requestMsg) == None && old(timeoutQueue.send) == [] && (ret == Ok || ret == Full)
                      then old(sent) + [token] else old(sent)
      ensures Abs() == InvokeSerial(old(Abs()), token, kind, deadline, ret)
    {
      hide PushOrFail, Push, NextId, Finish, Valid;
      var id := NextId(timeoutQueue.uniq);
      NewIdValid(timeoutQueue, id);
      timeoutQueue := timeoutQueue.(uniq := id);
      var msg := Message(token, kind, id);
      var bFlag;
      if requestMsg == None && timeoutQueue.send == [] {
        if ret == Ok || ret == Full {
          SentSerial(msg, deadline);
          return;
        } else if ret == Error {
          requestMsg := None;
          CloseConnection();
          Finished(token, SendFailed);
          return;
        } else if ret == Throw {
          CloseConnection();
          dropped := dropped + {token};
          return;
        }
      }
      bFlag := PushOrFinish(msg, deadline, false);
    }

    method InvokeConnectionParallel(msg: Message, deadline: int, ret: Outcome)
      requires Valid(timeoutQueue)
      modifies this`timeoutQueue, this`wire, this`epoch, this`log, this`dropped, this`sent
      ensures sent == if old(timeoutQueue.send) == [] && (ret == Ok || ret == Full) then old(sent) + [msg.token] else old(sent)
      ensures Abs() == InvokeParallel(old(Abs()), msg, deadline, ret)
    {
      var bFlag;
      if timeoutQueue.send == [] {
        if ret == Ok || ret == Full {
          sent := sent + [msg.token];
          if msg.kind == OneWay {
            Finished(msg.token, OneWaySent);
            return;
          }
          bFlag := PushOrFinish(msg, deadline, true);
          return;
        } else if ret == Error {
          CloseConnection();
          Finished(msg.token, SendFailed);
          return;
        } else if ret == Throw {
          CloseConnection();
          dropped := dropped + {msg.token};
          return;
        }
      }
      bFlag := PushOrFinish(msg, deadline, false);
    }

    /** The source asserts that serial mode has no one-way calls. */
    method Invoke(token: nat, kind: Kind, rpcId: Option<Id>, deadline: int, ret: Outcome)
      requires Valid(timeoutQueue) && (serial ==> kind != OneWay)
      modifies this
      ensures Abs() == RequestLifecycle.Invoke(old(Abs()), token, kind, rpcId, deadline, ret)
      ensures sent == old(sent) + SentIn(old(Abs()), Submit(token, kind, rpcId, deadline, ret))
    {
      hide Push, PushOrFail, Valid;
      NewIdValid(timeoutQueue, NextId(timeoutQueue.uniq));
      accepted := accepted + {token};
      if |timeoutQueue.send| > noSendQueueLimit {
        Finished(token, Overloaded);
        return;
      }
      if rpcId == None {
        timeoutQueue := timeoutQueue.(uniq := NextId(timeoutQueue.uniq));
      }
      if serial {
        InvokeConnectionSerial(token, kind, deadline, ret);
      } else {
        var id := match rpcId case Some(x) => x case None => timeoutQueue.uniq;
        InvokeConnectionParallel(Message(token, kind, id), deadline, ret);
      }
    }

    method DoInvokeSerial(iRet: Outcome)
      requires Valid(timeoutQueue)
      modifies this`timeoutQueue, this`requestMsg, this`wire, this`epoch, this`log, this`sent
      ensures sent == old(sent) + if old(requestMsg) == None && old(timeoutQueue.send) != [] && (iRet == Ok || iRet == Full)
                                  then [Unsent(old(timeoutQueue))[0]] else []
      ensures Abs() == RequestLifecycle.DoInvokeSerial(old(Abs()), iRet)
    {
      hide Erase, MarkSent, Unsent, Valid;
      if requestMsg != None || timeoutQueue.send == [] {
        return;
      }
      OldestUnsent(timeoutQueue);
      var id := timeoutQueue.send[0];
      var msg := timeoutQueue.data[id].msg;
      if iRet == Error {
        requestMsg := None;
        timeoutQueue := Erase(timeoutQueue, id);
        CloseConnection();
        Finished(msg.token, SendFailed);
        return;
      }
      if iRet == Ok || iRet == Full {
        requestMsg := Some(msg);
        timeoutQueue := MarkSent(timeoutQueue);
        wire, sent := wire + [msg.token], sent + [msg.token];
      } else if iRet == Throw {
        CloseConnection();
      }
    }

    /** One turn of the sending loop. */
    method TrySend(ret: Outcome)
      requires Valid(timeoutQueue) && timeoutQueue.send != []
      modifies this`timeoutQueue, this`wire, this`epoch, this`log, this`sent
      ensures sent == old(sent) + if ret == Ok || ret == Full then [Unsent(old(timeoutQueue))[0]] else []
      ensures Abs() == SendNext(old(Abs()), ret)
    {
      assert timeoutQueue.send[0] in timeoutQueue.send;
      var id := timeoutQueue.send[0];
      var msg := timeoutQueue.data[id].msg;
      if ret == Error || ret == Throw {
        CloseConnection();
        return;
      }
      if ret == NotSend {
        return;
      }
      sent := sent + [msg.token];
      if msg.kind == OneWay {
        timeoutQueue := Erase(timeoutQueue, id);
        Finished(msg.token, OneWaySent);
      } else {
        timeoutQueue := MarkSent(timeoutQueue);
      }
    }

    /** `rets` are the outcomes of the successive sends. */
    method DoInvokeParallel(rets: seq<Outcome>)
      requires Valid(timeoutQueue)
      modifies this`timeoutQueue, this`wire, this`epoch, this`log, this`sent
      ensures sent == old(sent) + SentBy(old(Abs()), rets)
      ensures Abs() == RequestLifecycle.DoInvokeParallel(old(Abs()), rets)
    {
      hide SendNext, Unsent, SentBy, RequestLifecycle.DoInvokeParallel;
      assert rets[0..] == rets;
      var i := 0;
      while timeoutQueue.send != [] && i < |rets|
        invariant i <= |rets| && Valid(timeoutQueue)
        invariant sent + SentBy(Abs(), rets[i..]) == old(sent) + SentBy(old(Abs()), rets)
        invariant RequestLifecycle.DoInvokeParallel(Abs(), rets[i..]) == RequestLifecycle.DoInvokeParallel(old(Abs()), rets)
        decreases |rets| - i
      {
        FlushTurn(Abs(), rets, i);
        SentTurn(Abs(), rets, i);
        TrySend(rets[i]);
        if rets[i] != Ok {
          return;
        }
        i := i + 1;
      }
      FlushEnd(Abs(), rets[i..]);
    }

    /** The reply of the head of the wire arrives.  The four asserts of the source are proved here. */
    method FinishInvokeSerial(ghost answers: nat)
      requires Paired(Abs()) && Ledger(Abs()) && wire != [] && answers == wire[0]
      modifies this`timeoutQueue, this`requestMsg, this`wire, this`epoch, this`log
      ensures Abs() == FinishSerial(old(Abs()).(wire := old(wire)[1..]), answers)
      ensures log == old(log) + [Done(answers, Replied(answers))]
    {
      ReplyPaired(Abs(), answers);
      wire := wire[1..];
      if requestMsg == None {
        return;
      }
      var request := requestMsg.value;
      var retErase := request.id in timeoutQueue.data;
      assert retErase;
      var msg := timeoutQueue.data[request.id].msg;
      assert request == msg;
      assert msg.kind != OneWay;
      assert !IsFinished(Abs(), msg.token);
      timeoutQueue := Erase(timeoutQueue, request.id);
      requestMsg := None;
      Finished(msg.token, Replied(answers));
    }

    /** A reply with the given id arrives; replies with id zero are server pushes, and without a push
        callback the source throws, upon which the connection is closed. */
    method FinishInvokeParallel(id: Id, ghost answers: nat, pushCallback: bool)
      requires Ledger(Abs())
      modifies this`timeoutQueue, this`log, this`wire, this`epoch, this`pushes
      ensures Abs() == FinishParallel(old(Abs()), id, answers, pushCallback)
    {
      if id == 0 {
        if !pushCallback {
          CloseConnection();
        } else {
          pushes := pushes + 1;
        }
        return;
      }
      if id !in timeoutQueue.data {
        return;
      }
      var msg := timeoutQueue.data[id].msg;
      assert !IsFinished(Abs(), msg.token);
      timeoutQueue := Erase(timeoutQueue, id);
      Finished(msg.token, Replied(answers));
    }

    method TakeOut(id: Id)
      requires Valid(timeoutQueue) && id in timeoutQueue.data
      modifies this`timeoutQueue, this`requestMsg, this`wire, this`epoch
      ensures Abs() == Withdraw(old(Abs()), id)
    {
      var msg := EraseRequest(id);
      ghost var t := Abs();
      if requestMsg == Some(msg) {
        CloseConnection();
        requestMsg := None;
        assert Abs() == Close(t).(requestMsg := None);
      }
    }

    method EraseRequest(id: Id) returns (msg: Message)
      requires Valid(timeoutQueue) && id in timeoutQueue.data
      modifies this`timeoutQueue
      ensures Abs() == old(Abs()).(q := Erase(old(timeoutQueue), id)) && msg == old(timeoutQueue.data)[id].msg
    {
      msg := timeoutQueue.data[id].msg;
      timeoutQueue := Erase(timeoutQueue, id);
    }

    /** Finishes one expired request; when it is the one in flight the connection is closed. */
    method ExpireOne(id: Id, shield: bool)
      requires Valid(timeoutQueue) && id in timeoutQueue.data
      modifies this`timeoutQueue, this`requestMsg, this`wire, this`epoch, this`log
      ensures Abs() == Expire(old(Abs()), id, shield)
    {
      var msg := timeoutQueue.data[id].msg;
      TakeOut(id);
      Finished(msg.token, TimedOut);
      if shield {
        CloseConnection();
      }
    }

    method DoTimeout(now: int, shield: nat -> bool)
      requires Valid(timeoutQueue)
      modifies this`timeoutQueue, this`requestMsg, this`wire, this`epoch, this`log
      ensures Abs() == RequestLifecycle.DoTimeout(old(Abs()), now, shield)
    {
      while Expired(timeoutQueue, now)
        invariant Valid(timeoutQueue)
        invariant RequestLifecycle.DoTimeout(Abs(), now, shield) == RequestLifecycle.DoTimeout(old(Abs()), now, shield)
        decreases |timeoutQueue.data|
      {
        FirstIsHeld(timeoutQueue);
        var id := timeoutQueue.time[0];
        ExpireShrinks(Abs(), id);
        ExpireOne(id, shield(timeoutQueue.data[id].msg.token));
      }
    }
  }
}
