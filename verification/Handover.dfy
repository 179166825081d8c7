/** What prepareConnection does with the messages that waited for a connection. */
module Handover {
  import opened Basics
  import opened TimeoutQueue
  import opened RequestLifecycle
  import opened ObjectQueue
  import opened ObjectRuns
  import LifecycleRuns

  /** Selection is repeated for the message and finds no adapter. */
  predicate Fails(w: Waiting, turn: nat -> Turn) {
    Reselects(w) && turn(w.call.token).pick == None
  }

  /** The loop can run from here. */
  ghost predicate Ready(o: Object, cur: nat, turn: nat -> Turn) {
    Sound(o) && cur < |o.adapters| && PicksInRange(o, turn)
  }

  // ----- One turn of the loop -----

  /** The loop ends with the first message: its selection fails, or handing it on throws. */
  ghost predicate StopsHere(o: Object, cur: nat, turn: nat -> Turn)
    requires Ready(o, cur, turn) && o.queue != []
  {
    var c := o.queue[0].call;
    match Target(o.queue[0], cur, turn)
    case None => true
    case Some(a) => Throws(o.adapters[a], c, turn(c.token).o)
  }

  /** The first message is handed to adapter `a`. */
  function Handed(o: Object, a: nat, turn: nat -> Turn): (h: Object)
    requires Sound(o) && o.queue != [] && a < |o.adapters|
    ensures Sound(h) && h.queue == o.queue[1..] && |h.adapters| == |o.adapters|
  {
    Hand(Pop(o), a, o.queue[0].call, turn(o.queue[0].call.token).o)
  }

  lemma OneTurn(o: Object, cur: nat, turn: nat -> Turn)
    requires Ready(o, cur, turn) && o.queue != []
    ensures Fails(o.queue[0], turn) <==> Target(o.queue[0], cur, turn) == None
    ensures Fails(o.queue[0], turn) ==> Prepare(o, cur, turn) == Dispose(Pop(o), o.queue[0].call, false)
    ensures forall a :: Target(o.queue[0], cur, turn) == Some(a) ==>
              a < |o.adapters| && Ready(Handed(o, a, turn), a, turn)
              && Prepare(o, cur, turn) == if StopsHere(o, cur, turn) then Handed(o, a, turn) else Prepare(Handed(o, a, turn), a, turn)
  {
    if Target(o.queue[0], cur, turn).Some? {
      var a := Target(o.queue[0], cur, turn).value;
      assert Ready(Handed(o, a, turn), a, turn);
    }
  }

  /** The loop goes on with the adapter that got the first message. */
  lemma GoesOn(o: Object, cur: nat, turn: nat -> Turn) returns (a: nat)
    requires Ready(o, cur, turn) && o.queue != [] && !StopsHere(o, cur, turn)
    ensures a < |o.adapters| && Target(o.queue[0], cur, turn) == Some(a) && Ready(Handed(o, a, turn), a, turn)
    ensures Prepare(o, cur, turn) == Prepare(Handed(o, a, turn), a, turn)
  {
    OneTurn(o, cur, turn);
    a := Target(o.queue[0], cur, turn).value;
  }

  // ----- How much of the queue is handed on -----

  /** The loop ends with message `i`. */
  ghost predicate StopsAt(o: Object, cur: nat, turn: nat -> Turn, i: nat)
    requires Ready(o, cur, turn) && i < |o.queue|
    decreases i
  {
    if i == 0 || StopsHere(o, cur, turn) then i == 0 && StopsHere(o, cur, turn)
    else
      var a := Target(o.queue[0], cur, turn).value;
      OneTurn(o, cur, turn);
      StopsAt(Handed(o, a, turn), a, turn, i - 1)
  }

  ghost predicate NoStopBefore(o: Object, cur: nat, turn: nat -> Turn, i: nat)
    requires Ready(o, cur, turn) && i <= |o.queue|
  {
    forall j :: 0 <= j < i ==> !StopsAt(o, cur, turn, j)
  }

  lemma LaterStop(o: Object, cur: nat, turn: nat -> Turn, a: nat, i: nat)
    requires Ready(o, cur, turn) && o.queue != [] && !StopsHere(o, cur, turn) && Target(o.queue[0], cur, turn) == Some(a)
    requires a < |o.adapters| && Ready(Handed(o, a, turn), a, turn) && i < |o.queue|
    ensures StopsAt(o, cur, turn, i) <==> i > 0 && StopsAt(Handed(o, a, turn), a, turn, i - 1)
  {
  }

  /** What prepareConnection leaves in the queue: everything behind the message it ends with. */
  lemma {:induction false} PrepareLeaves(o: Object, cur: nat, turn: nat -> Turn, i: nat)
    requires Ready(o, cur, turn) && i < |o.queue| && StopsAt(o, cur, turn, i)
    ensures Prepare(o, cur, turn).queue == o.queue[i + 1..]
    decreases i
  {
    hide StopsHere;
    OneTurn(o, cur, turn);
    if i == 0 {
      assert StopsHere(o, cur, turn);
    } else {
      var a := GoesOn(o, cur, turn);
      LaterStop(o, cur, turn, a, i);
      PrepareLeaves(Handed(o, a, turn), a, turn, i - 1);
    }
  }

  lemma LaterStops(o: Object, cur: nat, turn: nat -> Turn, a: nat, i: nat)
    requires Ready(o, cur, turn) && o.queue != [] && !StopsHere(o, cur, turn) && Target(o.queue[0], cur, turn) == Some(a)
    requires a < |o.adapters| && Ready(Handed(o, a, turn), a, turn) && 0 < i <= |o.queue|
    ensures NoStopBefore(o, cur, turn, i) <==> NoStopBefore(Handed(o, a, turn), a, turn, i - 1)
  {
    hide StopsHere;
    forall j | 0 <= j < i ensures StopsAt(o, cur, turn, j) <==> j > 0 && StopsAt(Handed(o, a, turn), a, turn, j - 1) {
      LaterStop(o, cur, turn, a, j);
    }
    if NoStopBefore(o, cur, turn, i) {
      forall j | 0 <= j < i - 1 ensures !StopsAt(Handed(o, a, turn), a, turn, j) {
        assert !StopsAt(o, cur, turn, j + 1);
      }
    }
  }

  lemma {:induction false} PrepareDrains(o: Object, cur: nat, turn: nat -> Turn)
    requires Ready(o, cur, turn) && NoStopBefore(o, cur, turn, |o.queue|)
    ensures Prepare(o, cur, turn).queue == []
    decreases |o.queue|
  {
    if o.queue == [] {
    } else {
      assert !StopsAt(o, cur, turn, 0);
      var a := GoesOn(o, cur, turn);
      LaterStops(o, cur, turn, a, |o.queue|);
      PrepareDrains(Handed(o, a, turn), a, turn);
    }
  }

  /** The whole queue is handed on or disposed of if and only if the loop ends with none of its messages but
      perhaps the last. */
  lemma DrainsIff(o: Object, cur: nat, turn: nat -> Turn)
    requires Ready(o, cur, turn)
    ensures Prepare(o, cur, turn).queue == [] <==> forall i :: 0 <= i < |o.queue| - 1 ==> !StopsAt(o, cur, turn, i)
  {
    hide StopsAt;
    var n := |o.queue|;
    if i: nat :| i < n && StopsAt(o, cur, turn, i) {
      PrepareLeaves(o, cur, turn, i);
      forall j | 0 <= j < n - 1 && i == n - 1 ensures !StopsAt(o, cur, turn, j) {
        if StopsAt(o, cur, turn, j) {
          PrepareLeaves(o, cur, turn, j);
        }
      }
    } else {
      PrepareDrains(o, cur, turn);
    }
  }

  ghost predicate NeverThrows(turn: nat -> Turn) {
    forall t :: turn(t).o != Throw
  }

  /** As long as no send throws, the loop ends with the first message whose selection fails. */
  lemma {:induction false} StopsIffFails(o: Object, cur: nat, turn: nat -> Turn, i: nat)
    requires Ready(o, cur, turn) && i < |o.queue| && NeverThrows(turn)
    ensures StopsAt(o, cur, turn, i) <==> Fails(o.queue[i], turn) && forall j :: 0 <= j < i ==> !Fails(o.queue[j], turn)
    decreases i
  {
    OneTurn(o, cur, turn);
    if i == 0 || Fails(o.queue[0], turn) {
    } else {
      var a := Target(o.queue[0], cur, turn).value;
      StopsIffFails(Handed(o, a, turn), a, turn, i - 1);
      assert forall j :: 0 < j <= i ==> o.queue[j] == o.queue[1..][j - 1];
      assert forall j :: 0 <= j < i ==> o.queue[1..][j] == o.queue[j + 1];
    }
  }

  // ----- Which adapter gets a message -----

  /** The adapter selected last at or before message `i`, or the one that connected; none when that selection
      failed. */
  function Carrier(q: seq<Waiting>, cur: nat, turn: nat -> Turn, i: nat): (a: Option<nat>)
    requires i < |q|
    decreases i
  {
    if Reselects(q[i]) then turn(q[i].call.token).pick
    else if i == 0 then Some(cur)
    else Carrier(q, cur, turn, i - 1)
  }

  lemma {:induction false} CarrierShift(q: seq<Waiting>, cur: nat, turn: nat -> Turn, a: nat, i: nat)
    requires 0 < i < |q| && Carrier(q, cur, turn, 0) == Some(a)
    ensures Carrier(q, cur, turn, i) == Carrier(q[1..], a, turn, i - 1)
    decreases i
  {
    assert q[1..][i - 1] == q[i];
    if i == 1 {
    } else {
      CarrierShift(q, cur, turn, a, i - 1);
    }
  }

  lemma HandedInv(o: Object, a: nat, turn: nat -> Turn)
    requires Inv(o) && Sound(o) && o.queue != [] && a < |o.adapters|
    ensures Inv(Handed(o, a, turn)) && AtAdapter(Handed(o, a, turn), a, o.queue[0].call.token)
    ensures forall b, t :: AtAdapter(o, b, t) ==> AtAdapter(Handed(o, a, turn), b, t)
    ensures Handed(o, a, turn).given == o.given
  {
    var c := o.queue[0].call;
    HandPopped(o, a, turn(c.token).o);
    SubmitAccepts(o.adapters[a], Submission(c, turn(c.token).o));
  }

  /** prepareConnection takes no message away from an adapter. */
  lemma {:induction false} PrepareOnlyAdds(o: Object, cur: nat, turn: nat -> Turn, b: nat, t: nat)
    requires Inv(o) && Ready(o, cur, turn) && AtAdapter(o, b, t)
    ensures AtAdapter(Prepare(o, cur, turn), b, t)
    decreases |o.queue|
  {
    hide Inv, StopsHere;
    if o.queue == [] {
    } else {
      OneTurn(o, cur, turn);
      match Target(o.queue[0], cur, turn)
      case None =>
      case Some(a) =>
        HandedInv(o, a, turn);
        if !StopsHere(o, cur, turn) {
          PrepareOnlyAdds(Handed(o, a, turn), a, turn, b, t);
        }
    }
  }

  /** Where message `i` is after the loop. */
  ghost predicate Reaches(o: Object, cur: nat, turn: nat -> Turn, i: nat, b: nat)
    requires Ready(o, cur, turn) && i < |o.queue|
  {
    AtAdapter(Prepare(o, cur, turn), b, o.queue[i].call.token)
  }

  lemma AtOnlyOne(o: Object, r: Object, t: nat, a: nat)
    requires Inv(r) && t in r.given && AtAdapter(r, a, t)
    ensures forall b :: AtAdapter(r, b, t) <==> b == a
  {
    PlacesMean(r, t);
  }

  lemma QueuedNowhereElse(r: Object, t: nat)
    requires Inv(r) && t in r.given && InQueue(r, t)
    ensures forall b :: !AtAdapter(r, b, t)
  {
    PlacesMean(r, t);
  }

  lemma QueuedIsGiven(o: Object, i: nat)
    requires Inv(o) && i < |o.queue|
    ensures o.queue[i].call.token in o.given
  {
    var t := o.queue[i].call.token;
    WaitsIff(o.queue, t);
    assert Places(o, t) == Bit(t in o.given);
  }

  /** The first message reaches the adapter it is handed to, and no other. */
  lemma FirstReaches(o: Object, cur: nat, turn: nat -> Turn, b: nat)
    requires Inv(o) && Ready(o, cur, turn) && o.queue != []
    ensures Reaches(o, cur, turn, 0, b) <==> Target(o.queue[0], cur, turn) == Some(b)
  {
    hide Inv, StopsHere;
    var t := o.queue[0].call.token;
    OneTurn(o, cur, turn);
    PrepareKeeps(o, cur, turn);
    QueuedIsGiven(o, 0);
    match Target(o.queue[0], cur, turn)
    case None => FailedNowhere(o, t);
    case Some(a) =>
      HandedInv(o, a, turn);
      if !StopsHere(o, cur, turn) {
        PrepareOnlyAdds(Handed(o, a, turn), a, turn, a, t);
      }
      AtOnlyOne(o, Prepare(o, cur, turn), t, a);
  }

  lemma FailedNowhere(o: Object, t: nat)
    requires Inv(o) && o.queue != [] && t == o.queue[0].call.token
    ensures forall b :: !AtAdapter(Dispose(Pop(o), o.queue[0].call, false), b, t)
  {
    QueuedIsGiven(o, 0);
    assert InQueue(o, t);
    QueuedNowhereElse(o, t);
    forall b ensures !AtAdapter(Dispose(Pop(o), o.queue[0].call, false), b, t) {
      assert !AtAdapter(o, b, t);
    }
  }

  /** A message behind the one the loop ends with stays where it is. */
  lemma LeftBehind(o: Object, cur: nat, turn: nat -> Turn, i: nat, b: nat)
    requires Inv(o) && Ready(o, cur, turn) && 0 < i < |o.queue| && StopsHere(o, cur, turn)
    ensures !Reaches(o, cur, turn, i, b)
  {
    hide Inv;
    var r, t := Prepare(o, cur, turn), o.queue[i].call.token;
    PrepareKeeps(o, cur, turn);
    QueuedIsGiven(o, i);
    PrepareLeaves(o, cur, turn, 0);
    assert r.queue[i - 1].call.token == t;
    QueuedNowhereElse(r, t);
  }

  /** Message `i` reaches adapter `b` if and only if the loop ends with none before it and `b` is its carrier;
      for a message bound to an adapter this says whether it gets there. */
  lemma {:induction false} ReachesIff(o: Object, cur: nat, turn: nat -> Turn, i: nat, b: nat)
    requires Inv(o) && Ready(o, cur, turn) && i < |o.queue|
    ensures Reaches(o, cur, turn, i, b) <==> NoStopBefore(o, cur, turn, i) && Carrier(o.queue, cur, turn, i) == Some(b)
    decreases i
  {
    hide Inv, StopsHere, NoStopBefore;
    if i == 0 {
      FirstReaches(o, cur, turn, b);
      NoneBeforeFirst(o, cur, turn);
    } else if StopsHere(o, cur, turn) {
      LeftBehind(o, cur, turn, i, b);
      StopsFirst(o, cur, turn, i);
    } else {
      var a := GoesOn(o, cur, turn);
      HandedInv(o, a, turn);
      FirstCarrier(o.queue, cur, turn);
      ReachesIff(Handed(o, a, turn), a, turn, i - 1, b);
      LaterStops(o, cur, turn, a, i);
      CarrierShift(o.queue, cur, turn, a, i);
    }
  }

  lemma FirstCarrier(q: seq<Waiting>, cur: nat, turn: nat -> Turn)
    requires q != []
    ensures Carrier(q, cur, turn, 0) == Target(q[0], cur, turn)
  {
  }

  lemma NoneBeforeFirst(o: Object, cur: nat, turn: nat -> Turn)
    requires Ready(o, cur, turn)
    ensures NoStopBefore(o, cur, turn, 0)
  {
  }

  lemma StopsFirst(o: Object, cur: nat, turn: nat -> Turn, i: nat)
    requires Ready(o, cur, turn) && 0 < i < |o.queue| && StopsHere(o, cur, turn)
    ensures !NoStopBefore(o, cur, turn, i)
  {
    assert StopsAt(o, cur, turn, 0);
  }
}
