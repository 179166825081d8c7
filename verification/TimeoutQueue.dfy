/** TC_TimeoutQueueNew: requests indexed by id, by deadline and, while unsent, by sending order. */
module TimeoutQueue {
  import opened Basics

  const ID_LIMIT: nat := 0x1_0000_0000

  type Id = x: nat | x < ID_LIMIT

  datatype Kind = SyncCall | AsyncCall | OneWay

  /** A request; the token names the message object, the id is what travels on the wire. */
  datatype Message = Message(token: nat, kind: Kind, id: Id)

  datatype Item = Item(msg: Message, deadline: int, hasSend: bool)

  /** `send` holds the ids of the unsent requests, oldest first; `time` all ids by deadline. */
  datatype Queue = Queue(uniq: Id, data: map<Id, Item>, time: seq<Id>, send: seq<Id>)

  const EMPTY: Queue := Queue(0, map[], [], [])

  function Without(s: seq<Id>, x: Id): (r: seq<Id>)
    ensures forall y :: y in r <==> y in s && y != x
    ensures NoDuplicates(s) ==> NoDuplicates(r)
  {
    if s == [] then []
    else
      assert s == [s[0]] + s[1..];
      var rest := Without(s[1..], x);
      if s[0] == x then rest
      else
        assert NoDuplicates(s) ==> s[0] !in s[1..];
        [s[0]] + rest
  }

  lemma {:induction false} WithoutAbsent(s: seq<Id>, x: Id)
    requires x !in s
    ensures Without(s, x) == s
  {
    if s == [] {
    } else {
      WithoutAbsent(s[1..], x);
    }
  }

  lemma {:induction false} WithoutAt(s: seq<Id>, k: nat)
    requires k < |s| && NoDuplicates(s)
    ensures Without(s, s[k]) == s[..k] + s[k + 1..]
  {
    if k == 0 {
      assert s[0] !in s[1..];
      WithoutAbsent(s[1..], s[0]);
    } else {
      WithoutAt(s[1..], k - 1);
      assert s[..k] == [s[0]] + s[1..][..k - 1];
    }
  }

  ghost predicate ByDeadline(s: seq<Id>, data: map<Id, Item>)
    requires forall y :: y in s ==> y in data
  {
    s != [] ==>
      && (forall y :: y in s[1..] ==> data[s[0]].deadline <= data[y].deadline)
      && ByDeadline(s[1..], data)
  }

  /** The three indexes agree. */
  ghost predicate Consistent(data: map<Id, Item>, time: seq<Id>, send: seq<Id>) {
    && NoDuplicates(time) && NoDuplicates(send)
    && (forall id :: id in time <==> id in data)
    && (forall id :: id in send <==> id in data && !data[id].hasSend)
    && (forall id :: id in data ==> data[id].msg.id == id)
    && ByDeadline(time, data)
  }

  ghost predicate Valid(q: Queue) {
    Consistent(q.data, q.time, q.send)
  }

  /** The id counter skips zero when it wraps. */
  function NextId(u: Id): (id: Id)
    ensures id != 0
  {
    if u + 1 == ID_LIMIT then 1 else u + 1
  }

  /** `k` ids are generated. */
  function Generated(u: Id, k: nat): (id: Id)
    decreases k
  {
    if k == 0 then u else Generated(NextId(u), k - 1)
  }

  /** Every id but zero comes up once before any comes up again. */
  lemma {:induction false} GeneratedIds(u: Id, k: nat)
    requires k > 0
    ensures Generated(u, k) == if u == 0 then (k - 1) % (ID_LIMIT - 1) + 1 else (u - 1 + k) % (ID_LIMIT - 1) + 1
    decreases k
  {
    if k == 1 {
    } else {
      GeneratedIds(NextId(u), k - 1);
      if u + 1 == ID_LIMIT {
        assert (u - 1 + k) == (ID_LIMIT - 1) + (k - 1);
      }
    }
  }

  /** multimap::insert on the deadline index. */
  function InsertTime(s: seq<Id>, data: map<Id, Item>, x: Id): (r: seq<Id>)
    requires x in data && forall y :: y in s ==> y in data
    ensures forall y :: y in r <==> y in s || y == x
    ensures x !in s && NoDuplicates(s) ==> NoDuplicates(r)
    ensures ByDeadline(s, data) ==> ByDeadline(r, data)
  {
    if s == [] || data[x].deadline < data[s[0]].deadline then
      assert ([x] + s)[1..] == s;
      [x] + s
    else
      assert s == [s[0]] + s[1..];
      var rest := InsertTime(s[1..], data, x);
      assert ([s[0]] + rest)[1..] == rest;
      assert NoDuplicates(s) ==> s[0] !in s[1..];
      [s[0]] + rest
  }

  /** Cut at `k`, the ids before are due no later than `x` and the others later. */
  ghost predicate Splits(s: seq<Id>, data: map<Id, Item>, x: Id, k: nat) {
    && x in data && k <= |s| && (forall y :: y in s ==> y in data)
    && (forall i :: 0 <= i < k ==> data[s[i]].deadline <= data[x].deadline)
    && (forall i :: k <= i < |s| ==> data[s[i]].deadline > data[x].deadline)
  }

  /** A request comes up after all that are due no later, and before all that are due later. */
  lemma {:induction false} InsertTimePlaces(s: seq<Id>, data: map<Id, Item>, x: Id) returns (k: nat)
    requires x in data && (forall y :: y in s ==> y in data) && ByDeadline(s, data)
    ensures Splits(s, data, x, k) && InsertTime(s, data, x) == s[..k] + [x] + s[k..]
  {
    InsertTimeTurn(s, data, x);
    hide InsertTime;
    if s == [] || data[x].deadline < data[s[0]].deadline {
      k := 0;
      FirstIsLeast(s, data);
      assert s[..0] + [x] + s[0..] == [x] + s;
    } else {
      hide Splits;
      var n := InsertTimePlaces(s[1..], data, x);
      k := n + 1;
      SplitsLater(s, data, x, n);
      InOneLonger(s, n, x);
    }
  }

  lemma SplitsLater(s: seq<Id>, data: map<Id, Item>, x: Id, n: nat)
    requires s != [] && s[0] in data && Splits(s[1..], data, x, n) && data[s[0]].deadline <= data[x].deadline
    ensures Splits(s, data, x, n + 1) && n < |s|
  {
    assert forall i :: 0 < i < |s| ==> s[i] == s[1..][i - 1];
  }

  lemma InsertTimeTurn(s: seq<Id>, data: map<Id, Item>, x: Id)
    requires x in data && forall y :: y in s ==> y in data
    ensures InsertTime(s, data, x) ==
            if s == [] || data[x].deadline < data[s[0]].deadline then [x] + s else [s[0]] + InsertTime(s[1..], data, x)
  {
  }

  lemma InOneLonger(s: seq<Id>, n: nat, x: Id)
    requires n < |s|
    ensures [s[0]] + (s[1..][..n] + [x] + s[1..][n..]) == s[..n + 1] + [x] + s[n + 1..]
  {
  }

  lemma FirstIsLeast(s: seq<Id>, data: map<Id, Item>)
    requires (forall y :: y in s ==> y in data) && ByDeadline(s, data)
    ensures forall i :: 0 <= i < |s| ==> data[s[0]].deadline <= data[s[i]].deadline
  {
    assert forall i :: 0 < i < |s| ==> s[i] in s[1..];
  }

  /** Fails exactly on a duplicate id. */
  function Push(q: Queue, msg: Message, deadline: int, hasSend: bool): (r: (Queue, bool))
    requires Valid(q)
    ensures Valid(r.0)
    ensures r.1 <==> msg.id !in q.data
    ensures r.0.data == if r.1 then q.data[msg.id := Item(msg, deadline, hasSend)] else q.data
    ensures r.0.send == if r.1 && !hasSend then q.send + [msg.id] else q.send
    ensures r.0.uniq == q.uniq
  {
    if msg.id in q.data then (q, false)
    else
      var data := q.data[msg.id := Item(msg, deadline, hasSend)];
      DeadlineFrame(q.time, q.data, data);
      (Queue(q.uniq, data, InsertTime(q.time, data, msg.id), if hasSend then q.send else q.send + [msg.id]), true)
  }

  lemma {:induction false} DeadlineFrame(s: seq<Id>, data: map<Id, Item>, data': map<Id, Item>)
    requires forall y :: y in s ==> y in data && y in data' && data[y].deadline == data'[y].deadline
    requires ByDeadline(s, data)
    ensures ByDeadline(s, data')
  {
    if s == [] {
    } else {
      DeadlineFrame(s[1..], data, data');
    }
  }

  lemma {:induction false} DeadlineWithout(s: seq<Id>, data: map<Id, Item>, x: Id)
    requires forall y :: y in s ==> y in data
    requires ByDeadline(s, data)
    ensures ByDeadline(Without(s, x), data)
  {
    if s == [] {
    } else {
      DeadlineWithout(s[1..], data, x);
      var rest := Without(s[1..], x);
      assert ([s[0]] + rest)[1..] == rest;
    }
  }

  /** erase, timeout and popSend(true) drop a request from every index. */
  function Erase(q: Queue, id: Id): (r: Queue)
    requires Valid(q)
    ensures Valid(r)
    ensures r.data == q.data - {id}
    ensures r.uniq == q.uniq
    ensures r.send == Without(q.send, id)
  {
    DeadlineWithout(q.time, q.data, id);
    DeadlineFrame(Without(q.time, id), q.data, q.data - {id});
    Queue(q.uniq, q.data - {id}, Without(q.time, id), Without(q.send, id))
  }

  /** popSend(false): the oldest unsent request is now sent and only waits for its reply. */
  function MarkSent(q: Queue): (r: Queue)
    requires Valid(q) && q.send != []
    ensures Valid(r)
    ensures q.send[0] in q.data
    ensures r.data == q.data[q.send[0] := q.data[q.send[0]].(hasSend := true)]
    ensures r.uniq == q.uniq
    ensures r.send == q.send[1..]
  {
    var id := q.send[0];
    assert id in q.send;
    assert q.send == [id] + q.send[1..];
    var data := q.data[id := q.data[id].(hasSend := true)];
    DeadlineFrame(q.time, q.data, data);
    Queue(q.uniq, data, q.time, q.send[1..])
  }

  /** The request whose deadline comes first, if it has passed. */
  predicate Expired(q: Queue, now: int)
    requires Valid(q)
  {
    q.time != [] && (assert q.time[0] in q.time; q.data[q.time[0]].deadline <= now)
  }

  lemma NothingExpired(q: Queue, now: int)
    requires Valid(q) && !Expired(q, now)
    ensures forall id :: id in q.data ==> q.data[id].deadline > now
  {
    forall id | id in q.data ensures q.data[id].deadline > now {
      assert q.time == [q.time[0]] + q.time[1..];
    }
  }
}
