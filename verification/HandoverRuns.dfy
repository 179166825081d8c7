/** Runs of an ObjectProxy in which prepareConnection leaves messages behind or sends them elsewhere. */
module HandoverRuns {
  import opened Basics
  import opened TimeoutQueue
  import opened RequestLifecycle
  import opened ObjectQueue
  import opened ObjectRuns
  import opened Handover
  import LifecycleRuns

  /** A run that leads to this state. */
  ghost predicate Leads(es: seq<Event>, o: Object) {
    LegalRun(NewObject(false), es) && Exec(NewObject(false), es) == o
  }

  lemma {:induction false} RunOn(o: Object, es: seq<Event>, e: Event)
    requires Sound(o) && LegalRun(o, es) && Legal(Exec(o, es), e)
    ensures LegalRun(o, es + [e]) && Exec(o, es + [e]) == Step(Exec(o, es), e)
    decreases |es|
  {
    hide Step, Legal;
    if es == [] {
      assert (es + [e])[1..] == [];
    } else {
      assert (es + [e])[1..] == es[1..] + [e];
      RunOn(Step(o, es[0]), es[1..], e);
    }
  }

  lemma Next(es: seq<Event>, o: Object, e: Event)
    requires Leads(es, o) && Legal(o, e)
    ensures Leads(es + [e], Step(o, e))
  {
    RunOn(NewObject(false), es, e);
  }

  lemma LeadsInv(es: seq<Event>, o: Object)
    requires Leads(es, o)
    ensures Inv(o) && Sound(o)
  {
    hide Inv;
    NewObjectInv();
    RunKeeps(NewObject(false), es);
  }

  lemma NewObjectInv()
    ensures Inv(NewObject(false))
  {
  }

  function Plain(token: nat, hashed: bool): (c: Call) { Call(token, SyncCall, NoCallback, None, 100, hashed) }

  // ----- A message that goes elsewhere -----

  /** Two adapters, and a message waiting for the first of them to connect. */
  function WaitingForFirst(): (o: Object) {
    Object(false, [Waiting(Plain(7, true), 50, Some(0))], [Init(false, 10), Init(false, 10)], map[7 := Plain(7, true)], [])
  }

  lemma TwoAdapters()
    ensures Leads([NewAdapter(10)] + [NewAdapter(10)], Object(false, [], [Init(false, 10), Init(false, 10)], map[], []))
  {
    assert Leads([], NewObject(false));
    assert [] + [NewAdapter(10)] == [NewAdapter(10)];
    Next([], NewObject(false), NewAdapter(10));
    assert Step(NewObject(false), NewAdapter(10)) == Object(false, [], [Init(false, 10)], map[], []);
    Next([NewAdapter(10)], Object(false, [], [Init(false, 10)], map[], []), NewAdapter(10));
    assert [Init(false, 10)] + [Init(false, 10)] == [Init(false, 10), Init(false, 10)];
  }

  lemma WaitingForFirstReached()
    ensures Leads([NewAdapter(10)] + [NewAdapter(10)] + [Invoke(Plain(7, true), Chosen(0), false, 50, Ok)], WaitingForFirst())
  {
    hide Leads;
    var o, e := Object(false, [], [Init(false, 10), Init(false, 10)], map[], []), Invoke(Plain(7, true), Chosen(0), false, 50, Ok);
    TwoAdapters();
    Next([NewAdapter(10)] + [NewAdapter(10)], o, e);
    assert Step(o, e) == WaitingForFirst();
  }

  /** It is sent to the second adapter when that one connects first. */
  lemma BoundMessageGoesElsewhere(turn: nat -> Turn)
    requires Ready(WaitingForFirst(), 1, turn)
    ensures Leads([NewAdapter(10)] + [NewAdapter(10)] + [Invoke(Plain(7, true), Chosen(0), false, 50, Ok)], WaitingForFirst())
    ensures var r := Prepare(WaitingForFirst(), 1, turn); AtAdapter(r, 1, 7) && !AtAdapter(r, 0, 7)
  {
    hide Leads;
    WaitingForFirstReached();
    LeadsInv([NewAdapter(10)] + [NewAdapter(10)] + [Invoke(Plain(7, true), Chosen(0), false, 50, Ok)], WaitingForFirst());
    ReachesIff(WaitingForFirst(), 1, turn, 0, 0);
    ReachesIff(WaitingForFirst(), 1, turn, 0, 1);
  }

  // ----- A message left behind -----

  /** One adapter, and two messages that came before the endpoints were known, the first of them hashed or not. */
  function TwoWaiting(hashed: bool): (o: Object) {
    Object(false, [Waiting(Plain(7, hashed), 100, None), Waiting(Plain(8, false), 100, None)], [Init(false, 10)],
           map[7 := Plain(7, hashed), 8 := Plain(8, false)], [])
  }

  function TwoEarly(hashed: bool): (es: seq<Event>) {
    [NewAdapter(10)] + [Invoke(Plain(7, hashed), NotValid, false, 50, Ok)] + [Invoke(Plain(8, false), NotValid, false, 50, Ok)]
  }

  lemma TwoWaitingReached(hashed: bool)
    ensures Leads(TwoEarly(hashed), TwoWaiting(hashed))
  {
    var o1 := Object(false, [], [Init(false, 10)], map[], []);
    var o2 := Object(false, [Waiting(Plain(7, hashed), 100, None)], [Init(false, 10)], map[7 := Plain(7, hashed)], []);
    assert Leads([], NewObject(false));
    Next([], NewObject(false), NewAdapter(10));
    assert [] + [NewAdapter(10)] == [NewAdapter(10)] && Step(NewObject(false), NewAdapter(10)) == o1;
    Next([NewAdapter(10)], o1, Invoke(Plain(7, hashed), NotValid, false, 50, Ok));
    assert Step(o1, Invoke(Plain(7, hashed), NotValid, false, 50, Ok)) == o2;
    Next([NewAdapter(10)] + [Invoke(Plain(7, hashed), NotValid, false, 50, Ok)], o2, Invoke(Plain(8, false), NotValid, false, 50, Ok));
    assert Step(o2, Invoke(Plain(8, false), NotValid, false, 50, Ok)) == TwoWaiting(hashed);
  }

  /** When selection fails for the first, the second stays in the queue although an adapter is connected. */
  lemma FailedSelectionStrands(turn: nat -> Turn)
    requires Ready(TwoWaiting(true), 0, turn) && turn(7).pick == None
    ensures Leads(TwoEarly(true), TwoWaiting(true))
    ensures Prepare(TwoWaiting(true), 0, turn).queue == [Waiting(Plain(8, false), 100, None)]
  {
    hide Leads;
    TwoWaitingReached(true);
    OneTurn(TwoWaiting(true), 0, turn);
    PrepareLeaves(TwoWaiting(true), 0, turn, 0);
  }

  /** So it does when sending the first throws. */
  lemma ThrowStrands(turn: nat -> Turn)
    requires Ready(TwoWaiting(false), 0, turn) && turn(7).o == Throw
    ensures Leads(TwoEarly(false), TwoWaiting(false))
    ensures Prepare(TwoWaiting(false), 0, turn).queue == [Waiting(Plain(8, false), 100, None)]
  {
    hide Leads;
    TwoWaitingReached(false);
    OneTurn(TwoWaiting(false), 0, turn);
    PrepareLeaves(TwoWaiting(false), 0, turn, 0);
  }
}
