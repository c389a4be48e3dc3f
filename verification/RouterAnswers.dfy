/** What each kind of response means for the provider's breaker row and for the books, by the
    fields of the response, in the plain and in the structured lane. */
module RouterAnswers {
  import opened Wrappers
  import opened CircuitBreaker
  import opened RouterModel

  // --------------------------------------------------------------- kinds of failure

  predicate CallFails(r: Response) {
    r.status.HttpError? || r.status.Timeout?
  }

  /** 429, by its code or by what the adapter says. */
  predicate SaysRateLimited(r: Response) {
    r.statusCode == Some(429) || r.errorType == "rate_limited"
  }

  /** The row admits the request: there is none, it is CLOSED, or its cooldown has passed. */
  predicate RowDue(row: Option<Row>, now: Time) {
    row.None? || row.value.state == Closed || row.value.cooldown.None? || row.value.cooldown.value <= now
  }

  /** The provider is called: registered, admitted, and its key, if it has one, decrypts. */
  predicate IsCalled(p: Provider, row: Option<Row>, w: World) {
    p.name in w.registered && RowDue(row, w.now) && p.key != BadKey
  }

  function CountOf(row: Option<Row>): int {
    if row.None? then 0 else row.value.failures
  }

  predicate OnTrial(row: Option<Row>) {
    row.Some? && row.value.state != Closed
  }

  // ------------------------------------------------------------------ both lanes

  /** The k-th reply is the first one that is not misshapen, and the repairs reach that far. */
  predicate Decisive(replies: nat -> Reply, maxRepairs: int, k: nat) {
    && (k == 0 || k <= maxRepairs)
    && (forall j: nat | j < k :: replies(j).response.status == StatusOk && replies(j).shape != Valid)
    && !(replies(k).response.status == StatusOk && replies(k).shape != Valid)
  }

  lemma {:induction false} DecisiveFrom(replies: nat -> Reply, i: nat, k: nat, left: nat, jitter: real)
    requires i <= k <= i + left && !ShapeFailure(replies(k))
    requires forall j: nat | i <= j < k :: ShapeFailure(replies(j))
    ensures RepairDeal(replies, i, left, jitter).answer == RouteDeal(replies(k).response, jitter).answer
    decreases left
  {
    if i < k {
      DecisiveFrom(replies, i + 1, k, left - 1, jitter);
    }
  }

  /** The deal comes from response r: the only one in the plain lane, the decisive one in the
      structured lane. */
  ghost predicate ComesFrom(d: Deal, r: Response, jitter: real) {
    || d == RouteDeal(r, jitter)
    || exists replies: nat -> Reply, maxRepairs: int, k: nat ::
         Decisive(replies, maxRepairs, k) && replies(k).response == r && d == StructuredDeal(replies, maxRepairs, jitter)
  }

  lemma AnswerComes(d: Deal, r: Response, jitter: real)
    requires ComesFrom(d, r, jitter)
    ensures d.answer == RouteDeal(r, jitter).answer
  {
    if d != RouteDeal(r, jitter) {
      var replies: nat -> Reply, maxRepairs: int, k: nat :|
        Decisive(replies, maxRepairs, k) && replies(k).response == r && d == StructuredDeal(replies, maxRepairs, jitter);
      DecisiveFrom(replies, 0, k, Max0(maxRepairs), jitter);
    }
  }

  // ------------------------------------------------------------- the breaker row

  /** A server error or a timeout adds exactly one to the provider's counter, whatever its
      error is called; the third opens the circuit for 30 s, and before that a CLOSED row stays
      CLOSED and a trial keeps its window. */
  lemma FailureCounts(p: Provider, row: Option<Row>, w: World, d: Deal, r: Response)
    requires IsCalled(p, row, w) && ComesFrom(d, r, w.jitter(p.name))
    requires CallFails(r) && !SaysRateLimited(r)
    ensures RowAfter(p, row, w, d) == Some(
              if CountOf(row) + 1 >= 3 then Row(Open, CountOf(row) + 1, Some(w.now + 30.0), Some(w.now))
              else if OnTrial(row) then Row(HalfOpen, CountOf(row) + 1, Some(w.now + 60.0), Some(w.now))
              else Row(Closed, CountOf(row) + 1, if row.None? then None else row.value.cooldown, Some(w.now)))
  {
    AnswerComes(d, r, w.jitter(p.name));
  }

  /** A 429 opens the circuit within the jitter bounds, and counts nothing. */
  lemma RateLimitOpensRow(p: Provider, row: Option<Row>, w: World, d: Deal, r: Response)
    requires IsCalled(p, row, w) && ComesFrom(d, r, w.jitter(p.name)) && 0.8 <= w.jitter(p.name) <= 1.2
    requires CallFails(r) && SaysRateLimited(r)
    ensures var next := RowAfter(p, row, w, d);
      && next.Some? && next.value.state == Open && next.value.failures == CountOf(row)
      && next.value.lastFailure == Some(w.now) && next.value.cooldown.Some?
      && WithinThrottle(next.value.cooldown.value, r.retryAfter, w.now)
      && next.value.cooldown.value == w.now +
           if r.retryAfter.None? || r.retryAfter.value * w.jitter(p.name) < 30.0 then 30.0
           else r.retryAfter.value * w.jitter(p.name)
  {
    AnswerComes(d, r, w.jitter(p.name));
    ThrottleBounds(r.retryAfter, w.jitter(p.name), w.now);
  }

  /** An unavailable provider leaves its row as the admission left it. */
  lemma UnavailableLeavesRow(p: Provider, row: Option<Row>, w: World, d: Deal, r: Response)
    requires IsCalled(p, row, w) && ComesFrom(d, r, w.jitter(p.name)) && r.status.Unavailable?
    ensures RowAfter(p, row, w, d) ==
      if OnTrial(row) then Some(row.value.(state := HalfOpen, cooldown := Some(w.now + 60.0))) else row
  {
    AnswerComes(d, r, w.jitter(p.name));
  }

  /** A success closes the circuit after a trial, and changes nothing otherwise. */
  lemma SuccessClosesTrial(p: Provider, row: Option<Row>, w: World, d: Deal, r: Response)
    requires IsCalled(p, row, w) && ComesFrom(d, r, w.jitter(p.name)) && r.status.StatusOk?
    ensures RowAfter(p, row, w, d) == if OnTrial(row) then Some(Row(Closed, 0, None, None)) else row
    ensures Wins(p, row, w, d)
  {
    AnswerComes(d, r, w.jitter(p.name));
  }

  /** A provider that is not called keeps its row, but for the trial claimed before its key
      turned out to be broken. */
  lemma NotCalledKeepsRow(p: Provider, row: Option<Row>, w: World, d: Deal)
    requires !IsCalled(p, row, w)
    ensures RowAfter(p, row, w, d) ==
      if p.name in w.registered && RowDue(row, w.now) && OnTrial(row)
      then Some(row.value.(state := HalfOpen, cooldown := Some(w.now + 60.0))) else row
    ensures !Wins(p, row, w, d) && ConsumedOf(p, row, w) == []
  {
  }

  // -------------------------------------------------------------------- the books

  /** What a failure is booked as. */
  ghost predicate BookedAs(r: Response, t: string) {
    && (r.status == Unavailable ==> t == "unavailable")
    && (r.status != Unavailable && r.errorType != "" ==> t == r.errorType)
    && (r.status == Timeout && r.errorType == "" ==> t == "timeout")
    && (r.status == HttpError && r.errorType == "" ==> t == "server_error")
  }

  /** A failed call of the plain lane: one usage row, one audit and one attempt, all under the
      same error. */
  lemma FailureIsBooked(p: Provider, row: Option<Row>, w: World, r: Response) returns (t: string)
    requires IsCalled(p, row, w) && !r.status.StatusOk?
    ensures BookedAs(r, t)
    ensures var d := RouteDeal(r, w.jitter(p.name));
      && UsageOf(p, row, w, d) == [Usage(p.id, false, t)] && AuditsOf(p, row, w, d) == [ProviderFailed(p.id, t)]
      && AttemptOf(p, row, w, d) == Attempt(p.name, CallFailed, t, true) && ConsumedOf(p, row, w) == [p.name]
  {
    t := FailureType(r);
  }

  /** A success of the plain lane: one usage row and nothing else. */
  lemma SuccessIsBooked(p: Provider, row: Option<Row>, w: World, r: Response)
    requires IsCalled(p, row, w) && r.status.StatusOk?
    ensures var d := RouteDeal(r, w.jitter(p.name));
      UsageOf(p, row, w, d) == [Usage(p.id, true, "")] && AuditsOf(p, row, w, d) == []
  {
  }

  /** A provider that is not called: why, and what is booked. */
  lemma SkipIsBooked(p: Provider, row: Option<Row>, w: World, d: Deal)
    requires !IsCalled(p, row, w)
    ensures AttemptOf(p, row, w, d) ==
      if p.name !in w.registered then Attempt(p.name, Unregistered, "unregistered", false)
      else if !RowDue(row, w.now) then Attempt(p.name, BreakerSkip, "breaker_skip", false)
      else Attempt(p.name, CallFailed, "invalid_key", true)
    ensures var broken := p.name in w.registered && RowDue(row, w.now);
      && UsageOf(p, row, w, d) == (if broken then [Usage(p.id, false, "invalid_key")] else [])
      && AuditsOf(p, row, w, d) == (if broken then [ProviderFailed(p.id, "invalid_key")] else [])
  {
  }

  /** In the structured lane every misshapen reply is booked in its place, by what was wrong
      with it: no JSON, or JSON that the model refuses. */
  lemma {:induction false} MisshapenIsBooked(replies: nat -> Reply, i: nat, left: nat, jitter: real, j: nat)
    requires i <= j <= i + left
    requires forall m: nat | i <= m <= j :: replies(m).response.status == StatusOk && replies(m).shape != Valid
    ensures var failures := RepairDeal(replies, i, left, jitter).failures;
      j - i < |failures| && failures[j - i] == if replies(j).shape == SchemaMismatch then "schema_mismatch" else "invalid_json"
    decreases left
  {
    assert ShapeFailure(replies(i));
    if i < j {
      MisshapenIsBooked(replies, i + 1, left - 1, jitter, j);
    }
  }

  /** And the decisive reply ends the list: nothing for a valid one, its error otherwise. */
  lemma {:induction false} DecisiveIsBooked(replies: nat -> Reply, i: nat, left: nat, jitter: real, k: nat) returns (t: string)
    requires i <= k <= i + left && !(replies(k).response.status == StatusOk && replies(k).shape != Valid)
    requires forall m: nat | i <= m < k :: replies(m).response.status == StatusOk && replies(m).shape != Valid
    ensures BookedAs(replies(k).response, t)
    ensures var failures := RepairDeal(replies, i, left, jitter).failures;
      if replies(k).response.status == StatusOk then |failures| == k - i
      else |failures| == k - i + 1 && failures[k - i] == t
    decreases left
  {
    if i < k {
      assert ShapeFailure(replies(i));
      t := DecisiveIsBooked(replies, i + 1, left - 1, jitter, k);
    } else {
      t := FailureType(replies(k).response);
    }
  }
}
