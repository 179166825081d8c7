/** Whether a node is shielded and when it may be tried again, read off the events of its history. */
module ShieldHistory {
  import opened CircuitBreaker

  // ----- Shielded or not -----

  /** A call that succeeds and a connection that comes up bring the node back. */
  predicate Revives(e: Event) {
    (e.CallDone? && !e.bFail) || (e.ConnResult? && !e.bExc)
  }

  /** Connection exceptions since the last connection that came up. */
  function Exceptions(es: seq<Event>): (n: nat)
    ensures n <= |es|
  {
    if es == [] then 0
    else
      var rest, e := es[..|es| - 1], es[|es| - 1];
      if !e.ConnResult? then Exceptions(rest) else if e.bExc then Exceptions(rest) + 1 else 0
  }

  /** A failed call, the last of the history, ends too long a streak or is judged with too many others. */
  ghost predicate CallTrips(info: Info, es: seq<Event>, e: Event)
    requires e.CallDone? && e.bFail
  {
    var h := History(info, es);
    var span := SpanOf(info, h);
    StreakTrips(info, h + [Past(e, true, false)]) || (e.now > span.end && RatioTrips(info, span.calls + [Past(e, true, false)]))
  }

  /** The event, after the events `es`, shields the node unless it is shielded already. */
  ghost predicate Trips(info: Info, es: seq<Event>, e: Event) {
    match e
    case CallDone(_, bFail) => bFail && CallTrips(info, es, e)
    case Checked(_, _, connectThrows) => connectThrows
    case ConnResult(_, bExc) => bExc && Exceptions(es) + 1 >= info.maxConnectExc
    case Shielded(_) => true
    case RetryNow(_) => false
  }

  /** The counter of connection exceptions stands still while its limit has the node shielded. */
  ghost predicate ExceptionMeaning(b: Breaker, info: Info, n: nat) {
    && b.connExcCnt <= n && (b.connExcCnt < n ==> b.connExcCnt >= info.maxConnectExc)
    && (b.connExc ==> !b.active && b.connExcCnt >= info.maxConnectExc)
  }

  lemma HistorySnoc(info: Info, es: seq<Event>, e: Event)
    ensures After(info, es + [e]) == Step(After(info, es), info, e)
    ensures History(info, es + [e]) == History(info, es) + [Note(After(info, es), e)]
  {
    assert (es + [e])[..|es|] == es;
  }

  lemma ExceptionsSnoc(es: seq<Event>, e: Event)
    ensures Exceptions(es + [e]) == if !e.ConnResult? then Exceptions(es) else if e.bExc then Exceptions(es) + 1 else 0
  {
    assert (es + [e])[..|es|] == es;
  }

  lemma StepExceptions(b: Breaker, info: Info, n: nat, e: Event)
    requires ExceptionMeaning(b, info, n)
    ensures ExceptionMeaning(Step(b, info, e), info, if !e.ConnResult? then n else if e.bExc then n + 1 else 0)
  {
    hide StreakRule, RatioRule, OverRatio;
  }

  lemma {:induction false} ExceptionsMean(info: Info, es: seq<Event>)
    ensures ExceptionMeaning(After(info, es), info, Exceptions(es))
  {
    hide ExceptionMeaning, Step;
    if es == [] {
      NoExceptions(info);
    } else {
      var n := |es| - 1;
      ExceptionsMean(info, es[..n]);
      StepExceptions(After(info, es[..n]), info, Exceptions(es[..n]), es[n]);
    }
  }

  lemma NoExceptions(info: Info)
    ensures ExceptionMeaning(FRESH, info, 0)
  {
  }

  /** One event: it brings the node back, shields it, or leaves it as it is. */
  lemma StepShielded(info: Info, es: seq<Event>, e: Event)
    ensures After(info, es + [e]).active <==>
              Revives(e) || (After(info, es).active && !Trips(info, es, e))
  {
    var b := After(info, es);
    HistorySnoc(info, es, e);
    match e
    case CallDone(now, bFail) =>
      if b.active {
        ShieldedExactlyWhen(info, es, now, bFail);
        assert Note(b, e) == Past(e, true, false);
      } else {
        Sleeping(b, info, now, bFail);
      }
    case ConnResult(_, _) => ExceptionsMean(info, es);
    case _ =>
  }

  lemma Sleeping(b: Breaker, info: Info, now: int, bFail: bool)
    requires !b.active
    ensures FinishCall(b, info, now, bFail).active <==> !bFail
  {
  }

  /** Event `i` shielded the node, and nothing since has brought it back. */
  ghost predicate ShieldedSince(info: Info, es: seq<Event>, i: nat) {
    i < |es| && Trips(info, es[..i], es[i]) && forall j :: i < j < |es| ==> !Revives(es[j])
  }

  /** After every history a node is shielded if and only if something shielded it and since then no call has succeeded
      and no connection has come up. */
  lemma {:induction false} ShieldedIff(info: Info, es: seq<Event>)
    ensures !After(info, es).active <==> exists i: nat :: ShieldedSince(info, es, i)
  {
    hide Trips, After, Revives;
    if es == [] {
      StartsActive(info);
    } else {
      var n := |es| - 1;
      assert es[..n] + [es[n]] == es;
      ShieldedIff(info, es[..n]);
      StepShielded(info, es[..n], es[n]);
      SinceSnoc(info, es[..n], es[n]);
      TripsDontRevive(info, es[..n], es[n]);
    }
  }

  lemma StartsActive(info: Info)
    ensures After(info, []).active
  {
  }

  lemma TripsDontRevive(info: Info, es: seq<Event>, e: Event)
    ensures Trips(info, es, e) ==> !Revives(e)
  {
  }

  lemma SinceSnoc(info: Info, es: seq<Event>, e: Event)
    ensures (exists i: nat :: ShieldedSince(info, es + [e], i)) <==>
              Trips(info, es, e) || (!Revives(e) && exists i: nat :: ShieldedSince(info, es, i))
  {
    var more, n := es + [e], |es|;
    assert more[..n] == es && more[n] == e;
    if i: nat :| ShieldedSince(info, more, i) && i < n {
      assert more[..i] == es[..i];
      assert !Revives(more[n]);
      assert ShieldedSince(info, es, i);
    }
    if Trips(info, es, e) {
      assert ShieldedSince(info, more, n);
    }
    if i: nat :| ShieldedSince(info, es, i) && !Revives(e) {
      assert more[..i] == es[..i];
      assert ShieldedSince(info, more, i);
    }
  }

  // ----- When it may be tried again -----

  ghost predicate IsShielded(info: Info, es: seq<Event>) {
    exists i: nat :: ShieldedSince(info, es, i)
  }

  /** The limit of connection exceptions was reached, and neither a connection came up nor a retried call succeeded since. */
  ghost predicate LimitReached(info: Info, es: seq<Event>) {
    es != [] &&
    var rest, e := es[..|es| - 1], es[|es| - 1];
    match e
    case ConnResult(_, bExc) => bExc && (LimitReached(info, rest) || Exceptions(rest) + 1 >= info.maxConnectExc)
    case CallDone(_, bFail) => LimitReached(info, rest) && !(IsShielded(info, rest) && !bFail)
    case _ => LimitReached(info, rest)
  }

  /** The event puts the next attempt off by an interval: it shields the node (a throwing connect does so without putting
      anything off), or is an attempt on a shielded node. */
  ghost predicate PutsOff(info: Info, es: seq<Event>, e: Event, retryAt: int) {
    match e
    case CallDone(_, bFail) => bFail && !IsShielded(info, es) && CallTrips(info, es, e)
    case Checked(now, connecting, _) => IsShielded(info, es) && (connecting || now >= retryAt)
    case ConnResult(_, bExc) => bExc && !LimitReached(info, es) && Exceptions(es) + 1 >= info.maxConnectExc
    case Shielded(_) => true
    case RetryNow(_) => false
  }

  /** The time before which no unforced attempt is made on a shielded node. */
  ghost function RetryAt(info: Info, es: seq<Event>): (t: int) {
    if es == [] then 0
    else
      var rest, e := es[..|es| - 1], es[|es| - 1];
      if e.RetryNow? then e.now
      else if PutsOff(info, rest, e, RetryAt(info, rest)) then e.now + info.tryTimeInterval
      else RetryAt(info, rest)
  }

  lemma StepLimit(info: Info, es: seq<Event>, e: Event)
    requires After(info, es).connExc <==> LimitReached(info, es)
    ensures After(info, es + [e]).connExc <==> LimitReached(info, es + [e])
  {
    hide Exceptions, IsShielded, StreakRule, RatioRule;
    var b := After(info, es);
    assert (es + [e])[..|es|] == es;
    HistorySnoc(info, es, e);
    ExceptionsMean(info, es);
    ShieldedMeans(info, es);
  }

  lemma ShieldedMeans(info: Info, es: seq<Event>)
    ensures After(info, es).active <==> !IsShielded(info, es)
  {
    ShieldedIff(info, es);
  }

  lemma {:induction false} LimitMeans(info: Info, es: seq<Event>)
    ensures After(info, es).connExc <==> LimitReached(info, es)
  {
    hide After, LimitReached;
    if es == [] {
      NoLimit(info);
    } else {
      var n := |es| - 1;
      assert es[..n] + [es[n]] == es;
      LimitMeans(info, es[..n]);
      StepLimit(info, es[..n], es[n]);
    }
  }

  lemma NoLimit(info: Info)
    ensures !After(info, []).connExc && !LimitReached(info, [])
  {
  }

  lemma StepRetry(info: Info, es: seq<Event>, e: Event)
    ensures var b, r := After(info, es), After(info, es + [e]);
            r.nextRetryTime == if e.RetryNow? then e.now
                               else if PutsOff(info, es, e, b.nextRetryTime) then e.now + info.tryTimeInterval
                               else b.nextRetryTime
  {
    hide IsShielded, Exceptions;
    var b := After(info, es);
    HistorySnoc(info, es, e);
    ShieldedMeans(info, es);
    match e
    case CallDone(now, bFail) =>
      if b.active {
        ShieldedExactlyWhen(info, es, now, bFail);
        assert Note(b, e) == Past(e, true, false);
        PutOffByCall(b, info, now, bFail);
      }
    case ConnResult(_, _) =>
      ExceptionsMean(info, es);
      LimitMeans(info, es);
    case _ =>
  }

  lemma PutOffByCall(b: Breaker, info: Info, now: int, bFail: bool)
    requires b.active
    ensures var r := FinishCall(b, info, now, bFail);
            r.nextRetryTime == if r.active then b.nextRetryTime else now + info.tryTimeInterval
  {
  }

  lemma {:induction false} RetryTimeIs(info: Info, es: seq<Event>)
    ensures After(info, es).nextRetryTime == RetryAt(info, es)
  {
    hide After, PutsOff;
    if es == [] {
      assert After(info, []) == FRESH by { StartsFresh(info); }
    } else {
      var n := |es| - 1;
      assert es[..n] + [es[n]] == es;
      RetryTimeIs(info, es[..n]);
      StepRetry(info, es[..n], es[n]);
    }
  }

  lemma StartsFresh(info: Info)
    ensures After(info, []) == FRESH
  {
  }

  /** After every history checkActive refuses at once exactly when it is not forced, the node is shielded and the time
      read off the history has not come. */
  lemma RefusedIff(info: Info, es: seq<Event>, now: int, connecting: bool)
    ensures Refused(After(info, es), now, connecting) <==> !connecting && IsShielded(info, es) && now < RetryAt(info, es)
  {
    ShieldedMeans(info, es);
    RetryTimeIs(info, es);
  }
}
