/** The breaker under requests that run one after another. */
module BreakerSequence {
  import opened Wrappers
  import opened CircuitBreaker

  datatype Visit = Visit(now: Time, answer: Answer)

  function RowAfter(vs: seq<Visit>): Option<Row> {
    if vs == [] then None
    else AfterVisit(RowAfter(vs[..|vs| - 1]), vs[|vs| - 1].now, vs[|vs| - 1].answer)
  }

  function LastAdmission(vs: seq<Visit>): Admission
    requires vs != []
  {
    AdmissionOf(RowAfter(vs[..|vs| - 1]), vs[|vs| - 1].now)
  }

  /** Server errors and timeouts of admitted requests since the last successful trial. */
  function CountedSinceReset(vs: seq<Visit>): nat {
    if vs == [] then 0
    else
      var before := CountedSinceReset(vs[..|vs| - 1]);
      var answer := vs[|vs| - 1].answer;
      if LastAdmission(vs).Skip? then before
      else if answer.Ok? && LastAdmission(vs).trial then 0
      else if answer.Failed? then before + 1
      else before
  }

  predicate RowOk(row: Option<Row>, counted: nat) {
    match row
    case None => counted == 0
    case Some(r) =>
      && r.failures == counted
      && (r.state.Closed? <==> r.cooldown.None?)
      && (r.state.Closed? ==> counted < TRIP_THRESHOLD)
  }

  /** In every run: the counter is exact, a row is CLOSED just when it has no cooldown,
      and then its counter is at most 2. */
  lemma {:induction false} CounterExact(vs: seq<Visit>)
    ensures RowOk(RowAfter(vs), CountedSinceReset(vs))
  {
    if vs != [] {
      CounterExact(vs[..|vs| - 1]);
    }
  }

  lemma OneMoreVisit(vs: seq<Visit>, v: Visit)
    ensures RowAfter(vs + [v]) == AfterVisit(RowAfter(vs), v.now, v.answer)
  {
    assert (vs + [v])[..|vs|] == vs;
  }

  /** The third counted failure takes a CLOSED row to OPEN with cooldown now + 30; an
      earlier one leaves it CLOSED. */
  lemma {:induction false} ClosedRowTripsOnThird(vs: seq<Visit>, now: Time)
    requires RowAfter(vs).None? || RowAfter(vs).value.state.Closed?
    ensures var next := RowAfter(vs + [Visit(now, Failed)]);
      next.Some? &&
      if CountedSinceReset(vs) == 2
      then next.value == Row(Open, 3, Some(now + 30.0), Some(now))
      else next.value == Row(Closed, CountedSinceReset(vs) + 1, None, Some(now)) && CountedSinceReset(vs) < 2
  {
    CounterExact(vs);
    OneMoreVisit(vs, Visit(now, Failed));
  }

  /** A failed trial re-opens the circuit only from the third counted failure on; below
      that the row stays HALF_OPEN until its 60 s window lapses. */
  lemma {:induction false} FailedTrialReopensFromThird(vs: seq<Visit>, now: Time)
    requires AdmissionOf(RowAfter(vs), now) == Admit(true)
    ensures var next := RowAfter(vs + [Visit(now, Failed)]);
      next.Some? && next.value.failures == CountedSinceReset(vs) + 1 &&
      if CountedSinceReset(vs) >= 2
      then next.value.state.Open? && next.value.cooldown == Some(now + 30.0)
      else next.value.state.HalfOpen? && next.value.cooldown == Some(now + 60.0)
  {
    CounterExact(vs);
    OneMoreVisit(vs, Visit(now, Failed));
  }

  /** Only counted failures and successful trials change the counter. */
  lemma {:induction false} OthersLeaveCounter(vs: seq<Visit>, v: Visit)
    requires v.answer.Unusable? || v.answer.RateLimited?
    ensures OrNew(RowAfter(vs + [v])).failures == OrNew(RowAfter(vs)).failures
  {
    OneMoreVisit(vs, v);
  }

  /** Nobody is locked out: a request is admitted exactly when the row is missing, CLOSED,
      or its cooldown has passed. */
  lemma {:induction false} AdmittedIffDue(vs: seq<Visit>, now: Time)
    ensures AdmissionOf(RowAfter(vs), now).Skip? <==>
      && RowAfter(vs).Some? && RowAfter(vs).value.cooldown.Some?
      && RowAfter(vs).value.cooldown.value > now
  {
    CounterExact(vs);
  }

  /** A rate-limited provider is OPEN until the jittered Retry-After, whatever it was. */
  lemma RateLimitOpens(vs: seq<Visit>, now: Time, retryAfter: Option<real>, jitter: real)
    requires Jitter(jitter) && !AdmissionOf(RowAfter(vs), now).Skip?
    ensures var next := RowAfter(vs + [Visit(now, RateLimited(retryAfter, jitter))]);
      && next.Some? && next.value.state.Open? && next.value.cooldown.Some?
      && WithinThrottle(next.value.cooldown.value, retryAfter, now)
      && next.value.failures == CountedSinceReset(vs)
  {
    CounterExact(vs);
    ThrottleBounds(retryAfter, jitter, now);
    OneMoreVisit(vs, Visit(now, RateLimited(retryAfter, jitter)));
  }
}
