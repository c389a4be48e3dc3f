/** What a request as a whole guarantees: failover order, accounting, repair bounds. */
module RouterFacts {
  import opened Wrappers
  import opened CircuitBreaker
  import opened RouterModel

  // --------------------------------------------------------------- failover order

  /** A provider can serve the request, judged by a breaker row. */
  predicate Serves(p: Provider, row: Option<Row>, w: World, answer: Response) {
    && p.name in w.registered
    && (row.Some? && !row.value.state.Closed? ==> row.value.cooldown.None? || row.value.cooldown.value <= w.now)
    && !p.key.BadKey?
    && answer.status.StatusOk?
  }

  lemma WinsIffServes(chain: Chain, found: Rows, w: World, answers: nat -> Response, i: nat)
    requires i < |chain|
    ensures WinsAt(chain, found, w, RouteDeals(chain, answers, w), i) <==> Serves(chain[i], found(i), w, answers(i))
  {
    assert AnswerOf(answers(i), w.jitter(chain[i].name)).Ok? <==> answers(i).status.StatusOk?;
  }

  /** For any chain, repeated names included, and any answers: the request is answered by the
      first entry that can serve it, judged by the row it finds, and fails only if none can. */
  lemma FailoverPicksFirst(chain: Chain, t: Table, w: World, answers: nat -> Response)
    ensures var deals := RouteDeals(chain, answers, w);
      match ResultOf(chain, Found(chain, t, w, deals), w, deals)
      case Answered(name) =>
        exists i | 0 <= i < |chain| ::
          && chain[i].name == name && Serves(chain[i], RowFound(chain, t, w, deals, i), w, answers(i))
          && forall j | 0 <= j < i :: !Serves(chain[j], RowFound(chain, t, w, deals, j), w, answers(j))
      case Exhausted(attempts, consumed) =>
        forall i | 0 <= i < |chain| :: !Serves(chain[i], RowFound(chain, t, w, deals, i), w, answers(i))
  {
    var deals := RouteDeals(chain, answers, w);
    var found := Found(chain, t, w, deals);
    forall i | 0 <= i < |chain|
      ensures WinsAt(chain, found, w, deals, i) <==> Serves(chain[i], RowFound(chain, t, w, deals, i), w, answers(i))
    {
      WinsIffServes(chain, found, w, answers, i);
    }
    var first := FirstWinner(chain, found, w, deals, 0);
    if first < |chain| {
      assert Serves(chain[first], RowFound(chain, t, w, deals, first), w, answers(first));
    }
  }

  predicate ServesInitially(chain: Chain, t: Table, w: World, answers: nat -> Response, i: nat)
    requires i < |chain|
  {
    Serves(chain[i], RowIn(t, chain[i].name), w, answers(i))
  }

  /** Without repeated names the breaker table at the start of the request decides. */
  lemma InitialTableDecides(chain: Chain, t: Table, w: World, answers: nat -> Response)
    requires NoDuplicates(chain)
    ensures var deals := RouteDeals(chain, answers, w);
      match ResultOf(chain, Found(chain, t, w, deals), w, deals)
      case Answered(name) =>
        exists i | 0 <= i < |chain| ::
          && chain[i].name == name && ServesInitially(chain, t, w, answers, i)
          && forall j | 0 <= j < i :: !ServesInitially(chain, t, w, answers, j)
      case Exhausted(attempts, consumed) =>
        forall i | 0 <= i < |chain| :: !ServesInitially(chain, t, w, answers, i)
  {
    var deals := RouteDeals(chain, answers, w);
    var found := Found(chain, t, w, deals);
    forall i | 0 <= i < |chain|
      ensures WinsAt(chain, found, w, deals, i) <==> ServesInitially(chain, t, w, answers, i)
    {
      WinsIffServes(chain, found, w, answers, i);
      RowFoundInitially(chain, t, w, deals, i);
    }
    var first := FirstWinner(chain, found, w, deals, 0);
    if first < |chain| {
      assert ServesInitially(chain, t, w, answers, first);
    }
  }

  /** With a repeated name it does not: a first answer of 429 opens the row, and the second
      entry is skipped although its answer would have been good. */
  lemma RepeatedNameIsSkipped(p: Provider, w: World, limited: Response, good: Response)
    requires p.name in w.registered && !p.key.BadKey? && Jitter(w.jitter(p.name))
    requires limited.status.HttpError? && limited.statusCode == Some(429) && good.status.StatusOk?
    ensures var answers: nat -> Response := i => if i == 0 then limited else good;
      && ServesInitially([p, p], map[], w, answers, 1)
      && var deals := RouteDeals([p, p], answers, w);
         ResultOf([p, p], Found([p, p], map[], w, deals), w, deals).Exhausted?
  {
    var answers: nat -> Response := i => if i == 0 then limited else good;
    var chain, deals := [p, p], RouteDeals([p, p], answers, w);
    var cooldown := CooldownForRetryAfter(limited.retryAfter, w.jitter(p.name), w.now);
    ThrottleBounds(limited.retryAfter, w.jitter(p.name), w.now);
    assert deals(0).answer == RateLimited(limited.retryAfter, w.jitter(p.name));
    assert RowAt(chain, map[], w, deals, 0, p.name) == None;
    assert RowFound(chain, map[], w, deals, 1) == Some(Tripped(NEW_ROW, cooldown, w.now));
    var found := Found(chain, map[], w, deals);
    assert !WinsAt(chain, found, w, deals, 0) && !WinsAt(chain, found, w, deals, 1);
    FirstWinnerAt(chain, found, w, deals, 0, 2);
  }

  /** Handling a duplicate-free chain changes no breaker row but those of the providers dealt
      with, each as if it were alone. */
  lemma RowsMoveAlone(b: Books, b': Books, chain: Chain, w: World, deals: Deals, r: RouteResult, name: string)
    requires NoDuplicates(chain) && Finished(b, b', chain, w, deals, r)
    ensures var n := Reached(chain, Found(chain, b.rows, w, deals), w, deals);
      if exists i :: 0 <= i < n && chain[i].name == name
      then exists i | 0 <= i < n :: chain[i].name == name
             && RowIn(b'.rows, name) == RowAfter(chain[i], RowIn(b.rows, name), w, deals(i))
      else RowIn(b'.rows, name) == RowIn(b.rows, name)
  {
    var n := Reached(chain, Found(chain, b.rows, w, deals), w, deals);
    if i: nat :| i < n && chain[i].name == name {
      RowFoundInitially(chain, b.rows, w, deals, i);
      RowMovedOnce(chain, b.rows, w, deals, i, n);
    } else {
      RowUntouched(chain, b.rows, w, deals, n, name);
    }
  }

  /** After its one entry a row stays as that entry left it. */
  lemma {:induction false} RowMovedOnce(chain: Chain, t: Table, w: World, deals: Deals, i: nat, n: nat)
    requires NoDuplicates(chain) && i < n <= |chain|
    ensures RowAt(chain, t, w, deals, n, chain[i].name) == RowAfter(chain[i], RowFound(chain, t, w, deals, i), w, deals(i))
  {
    if n > i + 1 {
      RowMovedOnce(chain, t, w, deals, i, n - 1);
      assert chain[n - 1].name != chain[i].name;
    }
  }

  // ------------------------------------------------------------------ accounting

  /** Every usage row is a failure, and the audit in the same place is its own. */
  ghost predicate Paired(us: seq<Usage>, audits: seq<Audit>) {
    |us| == |audits| &&
    forall k | 0 <= k < |us| :: !us[k].success && audits[k] == ProviderFailed(us[k].providerId, us[k].errorType)
  }

  lemma PairedAppend(us: seq<Usage>, audits: seq<Audit>, us': seq<Usage>, audits': seq<Audit>)
    requires Paired(us, audits) && Paired(us', audits')
    ensures Paired(us + us', audits + audits')
  {
  }

  /** What a provider adds without the success row, if any. */
  function FailuresOf(p: Provider, row: Option<Row>, w: World, d: Deal): seq<Usage> {
    FailedRows(p.id, FailureTypes(p, row, w, d))
  }

  lemma FailuresPaired(p: Provider, row: Option<Row>, w: World, d: Deal)
    ensures Paired(FailuresOf(p, row, w, d), AuditsOf(p, row, w, d))
    ensures UsageOf(p, row, w, d) ==
      FailuresOf(p, row, w, d) + (if Wins(p, row, w, d) then [Usage(p.id, true, "")] else [])
  {
  }

  function CalledCount(attempts: seq<Attempt>): nat {
    if attempts == [] then 0
    else CalledCount(attempts[..|attempts| - 1]) + (if attempts[|attempts| - 1].called then 1 else 0)
  }

  lemma CalledStep(attempts: seq<Attempt>, one: Attempt)
    ensures CalledCount(attempts + [one]) == CalledCount(attempts) + (if one.called then 1 else 0)
  {
    assert (attempts + [one])[..|attempts|] == attempts;
  }

  lemma UsageStep(chain: Chain, found: Rows, w: World, deals: Deals, n: nat)
    requires n < |chain|
    ensures UsageUpTo(chain, found, w, deals, n + 1)
         == UsageUpTo(chain, found, w, deals, n) + UsageOf(chain[n], found(n), w, deals(n))
    ensures AuditsUpTo(chain, found, w, deals, n + 1)
         == AuditsUpTo(chain, found, w, deals, n) + AuditsOf(chain[n], found(n), w, deals(n))
  {
  }

  /** Over a prefix without a winner every usage row is a failure with its audit. */
  lemma {:induction false} PrefixPaired(chain: Chain, found: Rows, w: World, deals: Deals, n: nat)
    requires n <= |chain| && NoWinnerBefore(chain, found, w, deals, n)
    ensures Paired(UsageUpTo(chain, found, w, deals, n), AuditsUpTo(chain, found, w, deals, n))
  {
    if n > 0 {
      assert !WinsAt(chain, found, w, deals, n - 1);
      PrefixPaired(chain, found, w, deals, n - 1);
      LoserPaired(chain, found, w, deals, n - 1);
    }
  }

  lemma LoserPaired(chain: Chain, found: Rows, w: World, deals: Deals, n: nat)
    requires n < |chain| && !WinsAt(chain, found, w, deals, n)
    requires Paired(UsageUpTo(chain, found, w, deals, n), AuditsUpTo(chain, found, w, deals, n))
    ensures Paired(UsageUpTo(chain, found, w, deals, n + 1), AuditsUpTo(chain, found, w, deals, n + 1))
  {
    var failures := FailuresOf(chain[n], found(n), w, deals(n));
    UsageStep(chain, found, w, deals, n);
    FailuresPaired(chain[n], found(n), w, deals(n));
    assert failures + [] == failures;
    PairedAppend(UsageUpTo(chain, found, w, deals, n), AuditsUpTo(chain, found, w, deals, n),
                 failures, AuditsOf(chain[n], found(n), w, deals(n)));
  }

  /** The rows end with a success, and the ones before it are failures with their audits. */
  ghost predicate PairedThenSuccess(us: seq<Usage>, audits: seq<Audit>, id: nat) {
    us != [] && us[|us| - 1] == Usage(id, true, "") && Paired(us[..|us| - 1], audits)
  }

  lemma WinnerPaired(chain: Chain, found: Rows, w: World, deals: Deals, n: nat)
    requires n < |chain| && WinsAt(chain, found, w, deals, n)
    requires Paired(UsageUpTo(chain, found, w, deals, n), AuditsUpTo(chain, found, w, deals, n))
    ensures PairedThenSuccess(UsageUpTo(chain, found, w, deals, n + 1), AuditsUpTo(chain, found, w, deals, n + 1), chain[n].id)
  {
    var before := UsageUpTo(chain, found, w, deals, n);
    var failures := FailuresOf(chain[n], found(n), w, deals(n));
    var success := Usage(chain[n].id, true, "");
    UsageStep(chain, found, w, deals, n);
    FailuresPaired(chain[n], found(n), w, deals(n));
    PairedAppend(before, AuditsUpTo(chain, found, w, deals, n), failures, AuditsOf(chain[n], found(n), w, deals(n)));
    assert before + (failures + [success]) == (before + failures) + [success];
    assert ((before + failures) + [success])[..|before + failures|] == before + failures;
  }

  /** Conservation in either lane, on success: every usage row but the last is a failure with
      its audit, and the last is the winner's success. */
  lemma SuccessAccounting(chain: Chain, found: Rows, w: World, deals: Deals)
    requires ResultOf(chain, found, w, deals).Answered?
    ensures var first, n := FirstWinner(chain, found, w, deals, 0), Reached(chain, found, w, deals);
      && n == first + 1 <= |chain|
      && PairedThenSuccess(UsageUpTo(chain, found, w, deals, n), AuditsUpTo(chain, found, w, deals, n), chain[first].id)
  {
    var first := FirstWinner(chain, found, w, deals, 0);
    PrefixPaired(chain, found, w, deals, first);
    WinnerPaired(chain, found, w, deals, first);
  }

  /** On exhaustion: every usage row is a failure with its audit, and there is one attempt per
      chain entry, in order. */
  lemma ExhaustionAccounting(chain: Chain, found: Rows, w: World, deals: Deals)
    requires ResultOf(chain, found, w, deals).Exhausted?
    ensures var n, attempts := |chain|, ResultOf(chain, found, w, deals).attempts;
      && Reached(chain, found, w, deals) == n
      && Paired(UsageUpTo(chain, found, w, deals, n), AuditsUpTo(chain, found, w, deals, n))
      && |attempts| == n && forall i | 0 <= i < n :: attempts[i].provider == chain[i].name
  {
    PrefixPaired(chain, found, w, deals, |chain|);
    forall i | 0 <= i < |chain|
      ensures AttemptsUpTo(chain, found, w, deals, |chain|)[i].provider == chain[i].name
    {
      AttemptInOrder(chain, found, w, deals, i);
    }
  }

  lemma AttemptNamesProvider(p: Provider, row: Option<Row>, w: World, d: Deal)
    ensures AttemptOf(p, row, w, d).provider == p.name
  {
  }

  lemma AttemptInOrder(chain: Chain, found: Rows, w: World, deals: Deals, i: nat)
    requires i < |chain|
    ensures AttemptsUpTo(chain, found, w, deals, |chain|)[i].provider == chain[i].name
  {
    AttemptNamesProvider(chain[i], found(i), w, deals(i));
  }

  /** In the plain lane each called attempt stands for exactly one failed row. */
  lemma {:induction false} PlainCalls(chain: Chain, found: Rows, w: World, answers: nat -> Response, n: nat)
    requires n <= |chain| && NoWinnerBefore(chain, found, w, RouteDeals(chain, answers, w), n)
    ensures CalledCount(AttemptsUpTo(chain, found, w, RouteDeals(chain, answers, w), n))
         == |AuditsUpTo(chain, found, w, RouteDeals(chain, answers, w), n)|
  {
    if n > 0 {
      var deals := RouteDeals(chain, answers, w);
      assert !WinsAt(chain, found, w, deals, n - 1);
      PlainCalls(chain, found, w, answers, n - 1);
      PlainCallOfOne(chain, found, w, answers, n - 1);
      AttemptsStep(chain, found, w, deals, n - 1);
      UsageStep(chain, found, w, deals, n - 1);
      CalledStep(AttemptsUpTo(chain, found, w, deals, n - 1),
                 AttemptOf(chain[n - 1], found(n - 1), w, deals(n - 1)));
    }
  }

  lemma PlainCallOfOne(chain: Chain, found: Rows, w: World, answers: nat -> Response, i: nat)
    requires i < |chain| && !WinsAt(chain, found, w, RouteDeals(chain, answers, w), i)
    ensures var deals := RouteDeals(chain, answers, w);
      var row := found(i);
      |AuditsOf(chain[i], row, w, deals(i))| == if AttemptOf(chain[i], row, w, deals(i)).called then 1 else 0
  {
  }

  /** In the plain lane an exhausted request has as many failed usage rows as failure
      audits as attempts marked called. */
  lemma PlainAccounting(chain: Chain, found: Rows, w: World, answers: nat -> Response)
    requires ResultOf(chain, found, w, RouteDeals(chain, answers, w)).Exhausted?
    ensures var deals := RouteDeals(chain, answers, w);
      && |UsageUpTo(chain, found, w, deals, |chain|)| == |AuditsUpTo(chain, found, w, deals, |chain|)|
      && |AuditsUpTo(chain, found, w, deals, |chain|)| == CalledCount(ResultOf(chain, found, w, deals).attempts)
  {
    PrefixPaired(chain, found, w, RouteDeals(chain, answers, w), |chain|);
    PlainCalls(chain, found, w, answers, |chain|);
  }

  // ------------------------------------------------------------- the structured lane

  /** Repairs are bounded: all calls but the last were misshapen, and the last was not
      unless the repairs ran out. */
  lemma {:induction false} RepairsBounded(replies: nat -> Reply, k: nat, left: nat, jitter: real)
    ensures var n, d := CallsMade(replies, k, left), RepairDeal(replies, k, left, jitter);
      && 1 <= n <= left + 1
      && (forall m: nat | k <= m < k + n - 1 :: ShapeFailure(replies(m)))
      && (ShapeFailure(replies(k + n - 1)) ==> n == left + 1 && d.answer == Unusable)
      && (!ShapeFailure(replies(k + n - 1)) ==> d.answer == AnswerOf(replies(k + n - 1).response, jitter))
      && |d.failures| == n - (if d.answer.Ok? then 1 else 0)
    decreases left
  {
    if ShapeFailure(replies(k)) && left > 0 {
      RepairsBounded(replies, k + 1, left - 1, jitter);
      var n := CallsMade(replies, k + 1, left - 1);
      assert CallsMade(replies, k, left) == n + 1 && (k + 1) + n - 1 == k + (n + 1) - 1;
    }
  }

  /** One usage row per adapter call of a provider; a bad key costs one row and no call. */
  lemma UsageRowPerCall(p: Provider, row: Option<Row>, w: World, replies: nat -> Reply, maxRepairs: int)
    ensures var d := StructuredDeal(replies, maxRepairs, w.jitter(p.name));
      |UsageOf(p, row, w, d)| ==
        match GateOf(p, row, w)
        case Callable(_) => CallsMade(replies, 0, Max0(maxRepairs))
        case KeyBroken(_) => 1
        case _ => 0
    ensures CallsMade(replies, 0, Max0(maxRepairs)) <= Max0(maxRepairs) + 1
  {
    RepairsBounded(replies, 0, Max0(maxRepairs), w.jitter(p.name));
  }

  /** A provider that only ever fails on output shape leaves its breaker row exactly as
      admission left it. */
  lemma ShapeFailuresLeaveBreaker(p: Provider, row: Option<Row>, w: World, replies: nat -> Reply, maxRepairs: int)
    requires forall k: nat :: ShapeFailure(replies(k))
    ensures RowAfter(p, row, w, StructuredDeal(replies, maxRepairs, w.jitter(p.name)))
         == if p.name in w.registered then AfterAdmission(row, w.now) else row
  {
    RepairsBounded(replies, 0, Max0(maxRepairs), w.jitter(p.name));
  }

  /** The k-th reply validates and all earlier ones were misshapen. */
  ghost predicate ValidAfterMisshapen(f: nat -> Reply, k: nat) {
    f(k).response.status.StatusOk? && f(k).shape.Valid? && forall j: nat | j < k :: ShapeFailure(f(j))
  }

  /** An entry wins the structured lane exactly if it is callable and some reply within the
      repairs validates after misshapen ones only. */
  lemma StructuredWinnerValidates(chain: Chain, found: Rows, w: World, replies: nat -> nat -> Reply, maxRepairs: int, i: nat)
    requires i < |chain|
    ensures var deals := StructuredDeals(chain, replies, maxRepairs, w);
      WinsAt(chain, found, w, deals, i) <==>
        && GateOf(chain[i], found(i), w).Callable?
        && exists k: nat :: k <= Max0(maxRepairs) && ValidAfterMisshapen(replies(i), k)
  {
    var f := replies(i);
    var n := CallsMade(f, 0, Max0(maxRepairs));
    StructuredDealAt(chain, replies, maxRepairs, w, i);
    RepairsBounded(f, 0, Max0(maxRepairs), w.jitter(chain[i].name));
    if k: nat :| k <= Max0(maxRepairs) && ValidAfterMisshapen(f, k) {
      assert !ShapeFailure(f(k));
      assert k >= n - 1;
      assert k < n;
    } else {
      assert !ValidAfterMisshapen(f, n - 1);
    }
  }
}
