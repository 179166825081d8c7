/** Exactly when the registry is asked again: after an answer, a failure, a pushed list, a query left open, and at the
    start. */
module RegistryTiming {
  import opened Basics
  import opened RegistryRefresh

  /** The refresh makes a query. */
  predicate Queries(c: Config, r: Registry, e: Event) { |Step(c, r, e).queries| > |r.queries| }

  /** A servant that keeps asking, through a refresh. */
  predicate Refreshes(c: Config, e: Event) { !c.Direct() && c.rootServant && e.RefreshReg? && e.now <= e.later }

  /** Only a refresh asks: when it is due, no query is open, the name does not carry the endpoints, and the servant is the
      root one or still without valid endpoints. */
  lemma AsksExactlyWhen(c: Config, r: Registry, e: Event)
    requires e.RefreshReg? ==> e.now <= e.later
    ensures Queries(c, r, e) <==>
              e.RefreshReg? && !c.Direct() && !r.requestRegistry && r.refreshTime <= e.now
              && (c.rootServant || !(r.valid || r.outter.Some?))
  {
  }

  lemma AsksIffDue(c: Config, r: Registry, e: Event)
    requires Refreshes(c, e)
    ensures Queries(c, r, e) <==> !r.requestRegistry && r.refreshTime <= e.now
  {
    AsksExactlyWhen(c, r, e);
  }

  /** After a failed query the next one is made two seconds later, or thirty once more than three have failed in a row,
      and not before. */
  lemma AskedAfterFailure(c: Config, r: Registry, failedAt: int, e: Event)
    requires Refreshes(c, e)
    ensures Queries(c, Failed(r, failedAt), e) <==>
              e.now >= failedAt + if r.failTimes + 1 > FAIL_TIMES_LIMIT then MANY_FAIL_INTERVAL else FAIL_INTERVAL
  {
    AsksIffDue(c, Failed(r, failedAt), e);
  }

  /** After an answer the next query is made an interval later, or ten seconds when it named no active endpoint, and not
      before; an error code counts as a failure. */
  lemma AskedAfterAnswer(c: Config, r: Registry, answeredAt: int, a: Answer, e: Event)
    requires Refreshes(c, e)
    ensures var q := Found(c, r, answeredAt, a);
            if a.iRet != 0 then Queries(c, q, e) <==> Queries(c, Failed(r, answeredAt), e)
            else Queries(c, q, e) <==>
                   e.now >= answeredAt + if a.active == [] && !c.interfaceReq then ACTIVE_EMPTY_INTERVAL else c.RefreshInterval()
  {
    AsksIffDue(c, Found(c, r, answeredAt, a), e);
  }

  /** A pushed list puts the next query off by an interval. */
  lemma AskedAfterPush(c: Config, r: Registry, pushedAt: int, l: Lists, e: Event)
    requires Refreshes(c, e) && !r.requestRegistry
    ensures Queries(c, Push(c, r, pushedAt, l), e) <==> e.now >= pushedAt + c.RefreshInterval()
  {
    AsksIffDue(c, Push(c, r, pushedAt, l), e);
  }

  /** A query that is sent off stays open until it is answered, or a refresh more than five seconds later withdraws it;
      as long as it is open no other is made. */
  lemma OpenQuery(c: Config, r: Registry, askedAt: int, e: Event)
    requires Refreshes(c, e)
    ensures var q := Ask(c, r, askedAt, askedAt, Pending);
            && q.requestRegistry && !Queries(c, q, e)
            && (Step(c, q, e).requestRegistry <==> e.now <= askedAt + TIMEOUT_INTERVAL)
  {
    AsksIffDue(c, Ask(c, r, askedAt, askedAt, Pending), e);
  }

  /** The start: without known lists the first refresh asks, with lists in use only after an interval. */
  lemma FirstQuery(c: Config, known: seq<Listed>, knownInactive: seq<Listed>, startedAt: int, e: Event)
    requires Refreshes(c, e) && 0 <= startedAt <= e.now
    ensures Queries(c, Initial(c, known, knownInactive, startedAt), e) <==>
              Known(c, known, knownInactive) == NO_LISTS || c.interfaceReq || e.now >= startedAt + c.RefreshInterval()
  {
    AsksIffDue(c, Initial(c, known, knownInactive, startedAt), e);
  }

  /** A manager starts valid if and only if the object name carries its endpoints or active ones are in the cache. */
  lemma StartsValid(c: Config, known: seq<Listed>, knownInactive: seq<Listed>, startedAt: int)
    ensures Initial(c, known, knownInactive, startedAt).valid <==> c.given || (known != [] && !c.interfaceReq)
  {
  }

  // ----- Failures in a row -----

  predicate Fails(e: Event) { e.CallbackException? || (e.Callback? && e.answer.iRet != 0) }

  predicate AllFail(es: seq<Event>) { forall i :: 0 <= i < |es| ==> Fails(es[i]) }

  lemma StepFails(c: Config, r: Registry, e: Event)
    requires Fails(e)
    ensures var q := Step(c, r, e);
            q.failTimes == r.failTimes + 1 && (q.valid <==> r.valid || q.failTimes > FAIL_TIMES_LIMIT) && q.book == r.book
  {
  }

  lemma {:induction false} FailsCount(c: Config, r: Registry, es: seq<Event>)
    requires AllFail(es) && (r.failTimes > FAIL_TIMES_LIMIT ==> r.valid)
    ensures var q := Exec(c, r, es);
            q.failTimes == r.failTimes + |es| && (q.valid <==> r.valid || q.failTimes > FAIL_TIMES_LIMIT) && q.book == r.book
    decreases |es|
  {
    hide Step;
    if es == [] {
    } else {
      assert Fails(es[0]);
      StepFails(c, r, es[0]);
      FailsCount(c, Step(c, r, es[0]), es[1..]);
    }
  }

  /** Any answer starts the count anew, and from then on it is the fourth failure in a row that makes an invalid manager
      valid; failures never touch the lists. */
  lemma FourthFailureForces(c: Config, r: Registry, answeredAt: int, a: Answer, es: seq<Event>)
    requires a.iRet == 0 && AllFail(es)
    ensures var q := Found(c, r, answeredAt, a);
            (Exec(c, q, es).valid <==> q.valid || |es| >= 4) && Exec(c, q, es).book == q.book
  {
    FailsCount(c, Found(c, r, answeredAt, a), es);
  }
}
