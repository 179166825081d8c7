/** The circuit breaker of AdapterProxy: when a node is shielded, when it is probed again, and what
    its counters mean over a whole history of events. */
module CircuitBreaker {

  /** CheckTimeoutInfo; times are in seconds. */
  datatype Info = Info(
    minTimeoutInvoke: nat,
    checkTimeoutInterval: nat,
    frequenceFailInvoke: nat,
    minFrequenceFailTime: nat,
    radio: real,
    tryTimeInterval: nat,
    maxConnectExc: nat)

  datatype Breaker = Breaker(
    active: bool,
    total: nat,
    timeouts: nat,
    nextFinishTime: int,
    streak: nat,
    streakTime: int,
    nextRetryTime: int,
    connExc: bool,
    connExcCnt: nat)

  const FRESH: Breaker := Breaker(true, 0, 0, 0, 0, 0, 0, false, 0)

  // ----- The operations -----

  /** setInactive and onSetInactive. */
  function Shield(b: Breaker, info: Info, now: int): (r: Breaker) {
    b.(active := false, nextRetryTime := now + info.tryTimeInterval)
  }

  predicate StreakRule(b: Breaker, info: Info, now: int) {
    b.streak >= info.frequenceFailInvoke && (now >= b.streakTime || info.frequenceFailInvoke == 1)
  }

  predicate OverRatio(timeouts: nat, total: nat, radio: real) {
    timeouts as real >= radio * (total as real)
  }

  /** With a ratio of `p` in `q`: at least `p` of every `q` calls timed out. */
  lemma OverRatioMeans(timeouts: nat, total: nat, p: nat, q: nat)
    requires q > 0
    ensures OverRatio(timeouts, total, p as real / q as real) <==> timeouts * q >= p * total
  {
    var radio := p as real / q as real;
    var x, y, c := timeouts as real, total as real, q as real;
    assert radio * c == p as real;
    assert (radio * y) * c == (radio * c) * y == (p * total) as real;
    assert x * c == (timeouts * q) as real;
    Scaling(x, radio * y, c);
  }

  lemma Scaling(a: real, b: real, c: real)
    requires c > 0.0
    ensures a >= b <==> a * c >= b * c
  {
  }

  predicate RatioRule(b: Breaker, info: Info) {
    b.timeouts >= info.minTimeoutInvoke && OverRatio(b.timeouts, b.total, info.radio)
  }

  /** The counters after a call is counted on an active node. */
  function Counted(b: Breaker, info: Info, now: int, bFail: bool): (r: Breaker) {
    if bFail then
      b.(total := b.total + 1, timeouts := b.timeouts + 1, streak := b.streak + 1,
         streakTime := if b.streak == 0 then now + info.minFrequenceFailTime else b.streakTime)
    else b.(total := b.total + 1, streak := 0)
  }

  /** Once per interval the failure ratio is judged and the counters start over. */
  function RatioCheck(c: Breaker, info: Info, now: int, bFail: bool): (r: Breaker) {
    if now <= c.nextFinishTime then c
    else
      var d := c.(nextFinishTime := now + info.checkTimeoutInterval);
      if bFail && RatioRule(c, info) then Shield(d, info, now) else d.(total := 0, timeouts := 0)
  }

  /** finishInvoke(bool). */
  function FinishCall(b: Breaker, info: Info, now: int, bFail: bool): (r: Breaker) {
    if !b.active then
      if bFail then b
      else b.(active := true, streak := 0, nextFinishTime := now + info.checkTimeoutInterval,
              total := 1, timeouts := 0, connExc := false)
    else
      var c := Counted(b, info, now, bFail);
      if bFail && StreakRule(c, info, now) then Shield(c, info, now)
      else RatioCheck(c, info, now, bFail)
  }

  /** checkActive is refused while the node is shielded, not forced and before the retry time. */
  predicate Refused(b: Breaker, now: int, connecting: bool) {
    !connecting && !b.active && now < b.nextRetryTime
  }

  /** checkActive; `connectThrows` says that a needed connect fails at once. */
  function Check(b: Breaker, info: Info, now: int, connecting: bool, connectThrows: bool): (r: Breaker) {
    if Refused(b, now, connecting) then b
    else
      var c := if b.active then b else b.(nextRetryTime := now + info.tryTimeInterval);
      if connectThrows then c.(active := false) else c
  }

  /** addConnExc. */
  function ConnExc(b: Breaker, info: Info, now: int, bExc: bool): (r: Breaker) {
    if bExc then
      if b.connExc then b
      else
        var c := b.(connExcCnt := b.connExcCnt + 1);
        if c.connExcCnt >= info.maxConnectExc then Shield(c, info, now).(connExc := true) else c
    else b.(connExc := false, connExcCnt := 0, active := true)
  }

  class AdapterHealth {
    const info: Info
    var activeStatus: bool
    var totalInvoke: nat
    var timeoutInvoke: nat
    var nextFinishInvokeTime: int
    var frequenceFailInvoke: nat
    var frequenceFailTime: int
    var nextRetryTime: int
    var connExc: bool
    var connExcCnt: nat

    function Abs(): Breaker
      reads this
    {
      Breaker(activeStatus, totalInvoke, timeoutInvoke, nextFinishInvokeTime, frequenceFailInvoke,
              frequenceFailTime, nextRetryTime, connExc, connExcCnt)
    }

    constructor (info: Info)
      ensures Abs() == FRESH && this.info == info
    {
      this.info := info;
      activeStatus, totalInvoke, timeoutInvoke, nextFinishInvokeTime := true, 0, 0, 0;
      frequenceFailInvoke, frequenceFailTime, nextRetryTime := 0, 0, 0;
      connExc, connExcCnt := false, 0;
    }

    method ResetRetryTime(next: bool, now: int)
      modifies this`nextRetryTime
      ensures nextRetryTime == if next then now + info.tryTimeInterval else now
    {
      if next {
        nextRetryTime := now + info.tryTimeInterval;
      } else {
        nextRetryTime := now;
      }
    }

    method SetInactive(now: int)
      modifies this`activeStatus, this`nextRetryTime
      ensures Abs() == Shield(old(Abs()), info, now)
    {
      activeStatus := false;
      ResetRetryTime(true, now);
    }

    method FinishInvoke(bFail: bool, now: int)
      modifies this
      ensures Abs() == FinishCall(old(Abs()), info, now, bFail)
    {
      hide RatioCheck;
      if !activeStatus {
        if !bFail {
          activeStatus := true;
          frequenceFailInvoke := 0;
          nextFinishInvokeTime := now + info.checkTimeoutInterval;
          totalInvoke := 1;
          timeoutInvoke := 0;
          connExc := false;
        }
        return;
      }
      totalInvoke := totalInvoke + 1;
      if bFail {
        timeoutInvoke := timeoutInvoke + 1;
        if frequenceFailInvoke == 0 {
          frequenceFailTime := now + info.minFrequenceFailTime;
        }
        frequenceFailInvoke := frequenceFailInvoke + 1;
        if frequenceFailInvoke >= info.frequenceFailInvoke && (now >= frequenceFailTime || info.frequenceFailInvoke == 1) {
          SetInactive(now);
          activeStatus := false;
          ResetRetryTime(true, now);
          return;
        }
      } else {
        frequenceFailInvoke := 0;
      }
      CheckRatio(bFail, now);
    }

    /** The ratio check at the end of finishInvoke. */
    method CheckRatio(bFail: bool, now: int)
      modifies this
      ensures Abs() == RatioCheck(old(Abs()), info, now, bFail)
    {
      if now > nextFinishInvokeTime {
        nextFinishInvokeTime := now + info.checkTimeoutInterval;
        if bFail && timeoutInvoke >= info.minTimeoutInvoke && OverRatio(timeoutInvoke, totalInvoke, info.radio) {
          SetInactive(now);
        } else {
          totalInvoke := 0;
          timeoutInvoke := 0;
        }
      }
    }

    /** `isValid`, `hasConnected` and `isConnecting` are what the transceiver reports. */
    method CheckActive(connecting: bool, now: int, isValid: bool, connectThrows: bool, hasConnected: bool, isConnecting: bool)
      returns (usable: bool)
      modifies this`activeStatus, this`nextRetryTime
      ensures Abs() == Check(old(Abs()), info, now, connecting, !isValid && connectThrows)
      ensures usable <==> !Refused(old(Abs()), now, connecting) && (hasConnected || (connecting && activeStatus && isConnecting))
    {
      if !connecting && !activeStatus && now < nextRetryTime {
        return false;
      }
      if !activeStatus {
        ResetRetryTime(true, now);
      }
      if !isValid {
        if connectThrows {
          activeStatus := false;
        }
      }
      if connecting && activeStatus {
        return hasConnected || isConnecting;
      } else {
        return hasConnected;
      }
    }

    method AddConnExc(bExc: bool, now: int)
      modifies this
      ensures Abs() == ConnExc(old(Abs()), info, now, bExc)
    {
      if bExc {
        if !connExc {
          connExcCnt := connExcCnt + 1;
          if connExcCnt >= info.maxConnectExc {
            SetInactive(now);
            connExc := true;
          }
        }
      } else {
        connExc := false;
        connExcCnt := 0;
        if !activeStatus {
          activeStatus := true;
        }
      }
    }
  }

  // ----- Histories -----

  datatype Event =
    | CallDone(now: int, bFail: bool)
    | Checked(now: int, connecting: bool, connectThrows: bool)
    | ConnResult(now: int, bExc: bool)
    | Shielded(now: int)   // another servant of the same endpoint was shielded
    | RetryNow(now: int)   // resetRetryTime(false)

  /** An event together with the activity of the node just before it. */
  datatype Past = Past(e: Event, wasActive: bool, refused: bool)

  function Step(b: Breaker, info: Info, e: Event): (r: Breaker) {
    match e
    case CallDone(now, bFail) => FinishCall(b, info, now, bFail)
    case Checked(now, connecting, connectThrows) => Check(b, info, now, connecting, connectThrows)
    case ConnResult(now, bExc) => ConnExc(b, info, now, bExc)
    case Shielded(now) => Shield(b, info, now)
    case RetryNow(now) => b.(nextRetryTime := now)
  }

  function Note(b: Breaker, e: Event): (p: Past) {
    Past(e, b.active, e.Checked? && Refused(b, e.now, e.connecting))
  }

  function After(info: Info, es: seq<Event>): (b: Breaker)
  {
    if es == [] then FRESH else Step(After(info, es[..|es| - 1]), info, es[|es| - 1])
  }

  function History(info: Info, es: seq<Event>): (h: seq<Past>)
    ensures |h| == |es|
  {
    if es == [] then []
    else History(info, es[..|es| - 1]) + [Note(After(info, es[..|es| - 1]), es[|es| - 1])]
  }

  /** Failures counted while the node was active since the last success, read off the history. */
  function FailureStreak(h: seq<Past>): (n: nat) {
    if h == [] then 0
    else
      var rest, last := h[..|h| - 1], h[|h| - 1];
      if !last.e.CallDone? then FailureStreak(rest)
      else if !last.e.bFail then 0
      else if last.wasActive then FailureStreak(rest) + 1
      else FailureStreak(rest)
  }

  /** When the first failure of the current streak happened. */
  function StreakStart(h: seq<Past>): (t: int) {
    if h == [] then 0
    else
      var rest, last := h[..|h| - 1], h[|h| - 1];
      if last.e.CallDone? && last.e.bFail && last.wasActive && FailureStreak(rest) == 0 then last.e.now
      else StreakStart(rest)
  }

  /** The last call of the history ends a long enough streak of failures. */
  predicate StreakTrips(info: Info, h: seq<Past>)
    requires h != []
  {
    FailureStreak(h) >= info.frequenceFailInvoke
    && (h[|h| - 1].e.now - StreakStart(h) >= info.minFrequenceFailTime || info.frequenceFailInvoke == 1)
  }

  /** The calls the failure ratio is judged on, and when it is judged next. */
  datatype Span = Span(calls: seq<Past>, end: int)

  function Failures(calls: seq<Past>): (n: nat)
    ensures n <= |calls|
  {
    if calls == [] then 0
    else
      var last := calls[|calls| - 1];
      Failures(calls[..|calls| - 1]) + if last.e.CallDone? && last.e.bFail then 1 else 0
  }

  /** Too many of these calls failed. */
  predicate RatioTrips(info: Info, calls: seq<Past>) {
    Failures(calls) >= info.minTimeoutInvoke && OverRatio(Failures(calls), |calls|, info.radio)
  }

  /** The next span after a call on an active node, given what the streak rule says. */
  function NextSpan(rest: Span, info: Info, p: Past, streakTrips: bool): (s: Span)
    requires p.e.CallDone?
  {
    var calls := rest.calls + [p];
    if (p.e.bFail && streakTrips) || p.e.now <= rest.end then Span(calls, rest.end)
    else Span(if p.e.bFail && RatioTrips(info, calls) then calls else [], p.e.now + info.checkTimeoutInterval)
  }

  /** Counting starts over with the success that ends a shielding, and after every due judgement that does not
      shield the node. */
  function SpanOf(info: Info, h: seq<Past>): (s: Span) {
    if h == [] then Span([], 0)
    else
      var rest, last := SpanOf(info, h[..|h| - 1]), h[|h| - 1];
      if !last.e.CallDone? || (!last.wasActive && last.e.bFail) then rest
      else if !last.wasActive then Span([last], last.e.now + info.checkTimeoutInterval)
      else NextSpan(rest, info, last, StreakTrips(info, h))
  }

  /** The calls that count: those on an active node, and a success that ends a shielding. */
  function CountedCalls(h: seq<Past>): (calls: seq<Past>) {
    if h == [] then []
    else
      var last := h[|h| - 1];
      CountedCalls(h[..|h| - 1]) + if last.e.CallDone? && (last.wasActive || !last.e.bFail) then [last] else []
  }

  /** The ratio is judged on all the calls that count since some moment. */
  lemma {:induction false} SpanIsRecent(info: Info, h: seq<Past>) returns (k: nat)
    ensures k <= |h| && SpanOf(info, h).calls == CountedCalls(h[k..])
  {
    if h == [] {
      k := 0;
    } else {
      var n, last := |h| - 1, h[|h| - 1];
      k := SpanIsRecent(info, h[..n]);
      assert h[..n][k..] == h[k..][..n - k] && h[k..][n - k] == last;
      if SpanOf(info, h).calls == [] {
        k := |h|;
      } else if last.e.CallDone? && !last.wasActive && !last.e.bFail {
        k := n;
        assert h[n..] == [last] && h[n..][..0] == [];
      }
    }
  }

  ghost predicate Meaning(b: Breaker, info: Info, h: seq<Past>) {
    && b.streak == FailureStreak(h)
    && (b.streak > 0 ==> b.streakTime == StreakStart(h) + info.minFrequenceFailTime)
    && (b.connExc ==> b.connExcCnt >= info.maxConnectExc)
  }

  /** What the total, the timeouts and the time of the next judgement mean. */
  ghost predicate SpanMeaning(b: Breaker, info: Info, h: seq<Past>) {
    var s := SpanOf(info, h);
    b.total == |s.calls| && b.timeouts == Failures(s.calls) <= b.total && b.nextFinishTime == s.end
  }

  lemma StreakSnoc(h: seq<Past>, p: Past)
    ensures FailureStreak(h + [p]) ==
            if !p.e.CallDone? then FailureStreak(h)
            else if !p.e.bFail then 0
            else FailureStreak(h) + (if p.wasActive then 1 else 0)
    ensures StreakStart(h + [p]) ==
            if p.e.CallDone? && p.e.bFail && p.wasActive && FailureStreak(h) == 0 then p.e.now else StreakStart(h)
  {
    assert (h + [p])[..|h|] == h;
  }

  lemma StepMeaning(b: Breaker, info: Info, h: seq<Past>, e: Event)
    requires Meaning(b, info, h)
    ensures Meaning(Step(b, info, e), info, h + [Note(b, e)])
  {
    hide OverRatio, RatioRule, StreakRule, FailureStreak, StreakStart;
    StreakSnoc(h, Note(b, e));
  }

  lemma FailuresSnoc(calls: seq<Past>, p: Past)
    ensures Failures(calls + [p]) == Failures(calls) + if p.e.CallDone? && p.e.bFail then 1 else 0
  {
    assert (calls + [p])[..|calls|] == calls;
  }

  /** The streak rule of the code is the one read off the history. */
  lemma StreakAgrees(b: Breaker, info: Info, h: seq<Past>, now: int)
    requires Meaning(b, info, h) && b.active
    ensures StreakRule(Counted(b, info, now, true), info, now) <==> StreakTrips(info, h + [Note(b, CallDone(now, true))])
  {
    StreakSnoc(h, Note(b, CallDone(now, true)));
  }

  /** So is the ratio rule. */
  lemma RatioAgrees(b: Breaker, info: Info, h: seq<Past>, now: int, bFail: bool)
    requires SpanMeaning(b, info, h)
    ensures var calls := SpanOf(info, h).calls + [Note(b, CallDone(now, bFail))];
            var c := Counted(b, info, now, bFail);
            c.total == |calls| && c.timeouts == Failures(calls) && (RatioRule(c, info) <==> RatioTrips(info, calls))
  {
    FailuresSnoc(SpanOf(info, h).calls, Note(b, CallDone(now, bFail)));
  }

  lemma ActiveSpan(info: Info, h: seq<Past>, p: Past)
    requires p.e.CallDone? && p.wasActive
    ensures SpanOf(info, h + [p]) == NextSpan(SpanOf(info, h), info, p, StreakTrips(info, h + [p]))
  {
    assert (h + [p])[..|h|] == h;
  }

  lemma IdleSpan(info: Info, h: seq<Past>, p: Past)
    requires p.e.CallDone? && !p.wasActive
    ensures SpanOf(info, h + [p]) ==
            if p.e.bFail then SpanOf(info, h) else Span([p], p.e.now + info.checkTimeoutInterval)
  {
    assert (h + [p])[..|h|] == h;
  }

  lemma FailedCallSpan(b: Breaker, info: Info, h: seq<Past>, now: int)
    requires Meaning(b, info, h) && SpanMeaning(b, info, h) && b.active
    ensures SpanMeaning(FinishCall(b, info, now, true), info, h + [Note(b, CallDone(now, true))])
  {
    var p := Note(b, CallDone(now, true));
    StreakAgrees(b, info, h, now);
    RatioAgrees(b, info, h, now, true);
    ActiveSpan(info, h, p);
    hide SpanOf, FailureStreak, StreakStart, Meaning, StreakTrips, StreakRule, RatioRule, RatioTrips, Failures, OverRatio;
    NoFailures();
  }

  lemma NoFailures()
    ensures Failures([]) == 0
  {
  }

  lemma SuccessSpan(b: Breaker, info: Info, h: seq<Past>, now: int)
    requires SpanMeaning(b, info, h) && b.active
    ensures SpanMeaning(FinishCall(b, info, now, false), info, h + [Note(b, CallDone(now, false))])
  {
    var p := Note(b, CallDone(now, false));
    FailuresSnoc(SpanOf(info, h).calls, p);
    ActiveSpan(info, h, p);
    hide SpanOf, FailureStreak, StreakStart, StreakTrips, StreakRule, RatioRule, RatioTrips, Failures, OverRatio;
    NoFailures();
  }

  lemma InactiveSpan(b: Breaker, info: Info, h: seq<Past>, now: int, bFail: bool)
    requires SpanMeaning(b, info, h) && !b.active
    ensures SpanMeaning(FinishCall(b, info, now, bFail), info, h + [Note(b, CallDone(now, bFail))])
  {
    var p := Note(b, CallDone(now, bFail));
    IdleSpan(info, h, p);
    FailuresSnoc([], p);
    assert [] + [p] == [p];
    NoFailures();
    hide SpanOf, Failures, FailureStreak, StreakStart, StreakRule, RatioRule, RatioCheck;
  }

  lemma StepSpan(b: Breaker, info: Info, h: seq<Past>, e: Event)
    requires Meaning(b, info, h) && SpanMeaning(b, info, h)
    ensures SpanMeaning(Step(b, info, e), info, h + [Note(b, e)])
  {
    if !e.CallDone? {
      assert (h + [Note(b, e)])[..|h|] == h;
    } else if !b.active {
      InactiveSpan(b, info, h, e.now, e.bFail);
    } else if e.bFail {
      FailedCallSpan(b, info, h, e.now);
    } else {
      SuccessSpan(b, info, h, e.now);
    }
  }

  /** The counters mean what their names say, after every history. */
  lemma {:induction false} CountersMeanHistory(info: Info, es: seq<Event>)
    ensures Meaning(After(info, es), info, History(info, es)) && SpanMeaning(After(info, es), info, History(info, es))
  {
    hide Meaning, SpanMeaning, Step;
    if es == [] {
      FreshMeaning(info);
    } else {
      var n := |es| - 1;
      CountersMeanHistory(info, es[..n]);
      StepMeaning(After(info, es[..n]), info, History(info, es[..n]), es[n]);
      StepSpan(After(info, es[..n]), info, History(info, es[..n]), es[n]);
    }
  }

  lemma FreshMeaning(info: Info)
    ensures Meaning(FRESH, info, []) && SpanMeaning(FRESH, info, [])
  {
  }

  /** A call that ends on an active node shields it exactly when it failed and either the failure streak has reached
      the threshold and the minimum time since its first failure has passed (or the threshold is one), or the ratio
      is due to be judged and too many of the calls it is judged on failed; all of it read off the history. */
  lemma ShieldedExactlyWhen(info: Info, es: seq<Event>, now: int, bFail: bool)
    requires After(info, es).active
    ensures var e := CallDone(now, bFail);
            var h := History(info, es + [e]);
            var span := SpanOf(info, History(info, es));
            !After(info, es + [e]).active <==>
              bFail && (StreakTrips(info, h) || (now > span.end && RatioTrips(info, span.calls + [Past(e, true, false)])))
  {
    var e, b := CallDone(now, bFail), After(info, es);
    assert (es + [e])[..|es|] == es;
    CountersMeanHistory(info, es);
    RatioAgrees(b, info, History(info, es), now, bFail);
    if bFail { StreakAgrees(b, info, History(info, es), now); }
  }

  // ----- Spacing of the probes of a shielded node -----

  ghost predicate MonotoneClock(es: seq<Event>) {
    forall i, j :: 0 <= i < j < |es| ==> es[i].now <= es[j].now
  }

  /** Event `i` is an unforced connection attempt on a shielded node. */
  ghost predicate UnforcedAttempt(info: Info, es: seq<Event>, i: nat)
    requires i < |es|
  {
    var b := After(info, es[..i]);
    es[i].Checked? && !es[i].connecting && !b.active && !Refused(b, es[i].now, false)
  }

  lemma {:induction false} RetryFloor(info: Info, es: seq<Event>, i: nat, j: nat)
    requires MonotoneClock(es) && i < j <= |es|
    requires UnforcedAttempt(info, es, i)
    requires forall k :: i < k < j ==> !es[k].RetryNow?
    ensures After(info, es[..j]).nextRetryTime >= es[i].now + info.tryTimeInterval
    decreases j
  {
    hide OverRatio, RatioRule, StreakRule;
    assert es[..j][..j - 1] == es[..j - 1];
    if j > i + 1 {
      RetryFloor(info, es, i, j - 1);
      assert es[i].now <= es[j - 1].now;
    }
  }

  /** Two unforced attempts on a shielded node with no resetRetryTime(false) between them are at
      least tryTimeInterval apart, whatever else happens in between. */
  lemma ProbesAreSpaced(info: Info, es: seq<Event>, i: nat, j: nat)
    requires MonotoneClock(es) && i < j < |es|
    requires UnforcedAttempt(info, es, i) && UnforcedAttempt(info, es, j)
    requires forall k :: i < k < j ==> !es[k].RetryNow?
    ensures es[j].now - es[i].now >= info.tryTimeInterval
  {
    RetryFloor(info, es, i, j);
  }
}
