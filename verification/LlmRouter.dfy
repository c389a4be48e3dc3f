/** The failover loop and the structured lane, as they change the breaker table and the
    accounting rows. */
module LlmRouter {
  import opened Wrappers
  import opened CircuitBreaker
  import opened RouterModel

  const VALID_PIPELINE_STEPS: set<string> :=
    {"jd_extraction", "rubric_generation", "scoring", "optimization", "package_generation"}

  /** What `_exhaust` writes when the chain is used up. */
  function ExhaustionAudits(r: RouteResult): seq<Audit> {
    if r.Exhausted? then [AllExhausted(r.consumed, r.attempts)] else []
  }

  function ExhaustionErrors(r: RouteResult): seq<ErrorRow> {
    if r.Exhausted? then [ErrorRow(r.consumed, r.attempts)] else []
  }

  function ExhaustionCheckpoints(r: RouteResult, jobId: Option<nat>, step: Option<string>): seq<Checkpoint> {
    if r.Exhausted? && jobId.Some? && step.Some? && step.value in VALID_PIPELINE_STEPS
    then [Checkpoint(jobId.value, step.value, r.consumed)] else []
  }

  class Router {
    const breakers: BreakerTable
    var usage: seq<Usage>
    var audits: seq<Audit>
    var errors: seq<ErrorRow>
    var checkpoints: seq<Checkpoint>

    constructor (breakers: BreakerTable)
      ensures this.breakers == breakers
      ensures usage == [] && audits == [] && errors == [] && checkpoints == []
    {
      this.breakers := breakers;
      usage, audits, errors, checkpoints := [], [], [], [];
    }

    ghost function CurrentBooks(): Books
      reads this, breakers
    {
      Books(breakers.rows, usage, audits)
    }

    method RecordFailure(p: Provider, errorType: string)
      modifies this`usage, this`audits
      ensures Recorded(old(CurrentBooks()), CurrentBooks(), p, [errorType])
    {
      usage := usage + [Usage(p.id, false, errorType)];
      audits := audits + [ProviderFailed(p.id, errorType)];
    }

    method HandleBreakers(name: string, now: Time) returns (proceed: bool, trial: bool)
      modifies breakers
      ensures AdmissionOf(RowIn(old(breakers.rows), name), now) == if proceed then Admit(trial) else Skip
      ensures !proceed ==> !trial
      ensures OnlyRow(old(breakers.rows), breakers.rows, name, AfterAdmission(RowIn(old(breakers.rows), name), now))
    {
      var breaker := breakers.GetBreaker(name);
      if breaker.None? || breaker.value.state.Closed? {
        return true, false;
      }
      if breaker.value.state.Open? {
        if breaker.value.cooldown.Some? && breaker.value.cooldown.value > now {
          return false, false;
        }
        var claimed := breakers.ClaimTrial(name, now);
        return claimed, claimed;
      }
      var claimed := breakers.ClaimTrial(name, now);
      return claimed, claimed;
    }

    method HandleCountFailure(name: string, observed: CircuitState, ghost trial: bool, now: Time)
      modifies breakers
      requires observed == Observed(trial)
      ensures OnlyRow(old(breakers.rows), breakers.rows, name,
                      Some(AfterCountFailure(RowIn(old(breakers.rows), name), trial, now)))
    {
      var breaker := breakers.GetBreaker(name);
      var current := 0;
      if breaker.None? {
        breakers.EnsureBreaker(name);
      } else {
        current := breaker.value.failures;
      }
      var counted := breakers.IncrementFailure(name, current, now);
      if current + 1 >= TRIP_THRESHOLD {
        var tripped := breakers.TripCircuit(name, 0, now + COOLDOWN_FLOOR, now, observed);
      }
    }

    method HandleRateLimit(name: string, observed: CircuitState, ghost trial: bool, cooldown: Time, now: Time)
      modifies breakers
      requires observed == Observed(trial)
      ensures OnlyRow(old(breakers.rows), breakers.rows, name,
                      Some(AfterRateLimit(RowIn(old(breakers.rows), name), trial, cooldown, now)))
    {
      breakers.EnsureBreaker(name);
      var tripped := breakers.TripCircuit(name, 0, cooldown, now, observed);
    }

    /** The end of a failing call: breaker first, then the accounting rows. */
    method HandleFailure(p: Provider, trial: bool, r: Response, w: World)
      modifies breakers, this`usage, this`audits
      requires !r.status.StatusOk?
      ensures OnlyRow(old(breakers.rows), breakers.rows, p.name,
                      AfterAnswer(RowIn(old(breakers.rows), p.name), trial, AnswerOf(r, w.jitter(p.name)), w.now))
      ensures Recorded(old(CurrentBooks()), CurrentBooks(), p, [FailureType(r)])
    {
      if r.status.Unavailable? {
        RecordFailure(p, "unavailable");
        return;
      }
      var errorType := ErrorTypeOf(r);
      var observed := if trial then HalfOpen else Closed;
      if errorType == "rate_limited" || r.statusCode == Some(429) {
        HandleRateLimit(p.name, observed, trial, CooldownForRetryAfter(r.retryAfter, w.jitter(p.name), w.now), w.now);
      } else {
        HandleCountFailure(p.name, observed, trial, w.now);
      }
      RecordFailure(p, errorType);
    }

    method Succeed(p: Provider, trial: bool, ghost now: Time)
      modifies breakers, this`usage
      ensures OnlyRow(old(breakers.rows), breakers.rows, p.name,
                      AfterAnswer(RowIn(old(breakers.rows), p.name), trial, Ok, now))
      ensures usage == old(usage) + [Usage(p.id, true, "")]
    {
      if trial {
        var reset := breakers.ResetCircuit(p.name, HalfOpen);
      }
      usage := usage + [Usage(p.id, true, "")];
    }

    /** `_exhaust`; with no attempts at all the fallback list is empty as well. */
    method Exhaust(jobId: Option<nat>, step: Option<string>, consumed: seq<string>, attempts: seq<Attempt>)
      modifies this`audits, this`errors, this`checkpoints
      requires attempts == [] ==> consumed == []
      ensures audits == old(audits) + [AllExhausted(consumed, attempts)]
      ensures errors == old(errors) + [ErrorRow(consumed, attempts)]
      ensures checkpoints == old(checkpoints) +
        if jobId.Some? && step.Some? && step.value in
          {"jd_extraction", "rubric_generation", "scoring", "optimization", "package_generation"}
        then [Checkpoint(jobId.value, step.value, consumed)] else []
    {
      var recorded := attempts;
      if recorded == [] {
        recorded := seq(|consumed|, i requires 0 <= i < |consumed| =>
                          Attempt(consumed[i], CallFailed, "unknown", true));
      }
      assert recorded == attempts;
      audits := audits + [AllExhausted(consumed, recorded)];
      errors := errors + [ErrorRow(consumed, recorded)];
      if jobId.Some? && step.Some? && step.value in VALID_PIPELINE_STEPS {
        checkpoints := checkpoints + [Checkpoint(jobId.value, step.value, consumed)];
      }
    }

    /** The checks before a call: registration, breaker, key. */
    method PassGate(p: Provider, w: World) returns (ready: bool, trial: bool, attempt: Attempt)
      modifies this`usage, this`audits, breakers
      ensures Admitted(old(CurrentBooks()), CurrentBooks(), p, w)
      ensures ready <==> GateOf(p, RowIn(old(breakers.rows), p.name), w).Callable?
      ensures ready ==> GateOf(p, RowIn(old(breakers.rows), p.name), w) == Callable(trial)
      ensures !ready ==> forall d: Deal :: attempt == AttemptOf(p, RowIn(old(breakers.rows), p.name), w, d)
    {
      attempt := Attempt(p.name, Unregistered, "unregistered", false);
      if p.name !in w.registered {
        return false, false, attempt;
      }
      var proceed;
      proceed, trial := HandleBreakers(p.name, w.now);
      if !proceed {
        return false, false, Attempt(p.name, BreakerSkip, "breaker_skip", false);
      }
      if p.key.BadKey? {
        RecordFailure(p, "invalid_key");
        return false, trial, Attempt(p.name, CallFailed, "invalid_key", true);
      }
      return true, trial, attempt;
    }

    /** The single call of the plain lane. */
    method CallOnce(p: Provider, trial: bool, response: Response, w: World, ghost d: Deal)
      returns (won: bool, errorType: string)
      modifies this`usage, this`audits, breakers
      requires d == RouteDeal(response, w.jitter(p.name))
      ensures Conversed(old(CurrentBooks()), CurrentBooks(), p, trial, w, d)
      ensures won <==> d.answer.Ok?
      ensures !won ==> d.failures != [] && errorType == d.failures[|d.failures| - 1]
    {
      if response.status.StatusOk? {
        Succeed(p, trial, w.now);
        return true, "";
      }
      HandleFailure(p, trial, response, w);
      return false, FailureType(response);
    }

    /** One provider in the plain lane. */
    method TryProvider(p: Provider, answer: Response, w: World, ghost d: Deal)
      returns (won: bool, called: seq<string>, attempt: Attempt)
      modifies this`usage, this`audits, breakers
      requires d == RouteDeal(answer, w.jitter(p.name))
      ensures Dealt(old(CurrentBooks()), CurrentBooks(), p, w, d)
      ensures won <==> Wins(p, RowIn(old(breakers.rows), p.name), w, d)
      ensures called == ConsumedOf(p, RowIn(old(breakers.rows), p.name), w)
      ensures !won ==> attempt == AttemptOf(p, RowIn(old(breakers.rows), p.name), w, d)
    {
      ghost var b := CurrentBooks();
      var ready, trial;
      ready, trial, attempt := PassGate(p, w);
      if !ready {
        StopAtGate(b, CurrentBooks(), p, w, d);
        return false, [], attempt;
      }
      ghost var mid := CurrentBooks();
      var errorType;
      won, errorType := CallOnce(p, trial, answer, w, d);
      AdmitThenConverse(b, mid, CurrentBooks(), p, w, trial, d);
      called := [p.name];
      attempt := Attempt(p.name, CallFailed, errorType, true);
    }

    /** The loop over the chain, one call per admitted provider. */
    method TryChain(chain: Chain, answers: nat -> Response, w: World, ghost deals: Deals)
      returns (r: RouteResult)
      modifies this`usage, this`audits, breakers
      requires deals == RouteDeals(chain, answers, w)
      ensures Finished(old(CurrentBooks()), CurrentBooks(), chain, w, deals, r)
      ensures r.Exhausted? && r.attempts == [] ==> r.consumed == []
    {
      ghost var b := CurrentBooks();
      var consumed: seq<string> := [];
      var attempts: seq<Attempt> := [];
      ProgressStart(b, chain, w, deals);
      for i := 0 to |chain|
        invariant Progress(b, CurrentBooks(), chain, w, deals, i, attempts, consumed)
      {
        ghost var before := CurrentBooks();
        var won, called, attempt := TryProvider(chain[i], answers(i), w, deals(i));
        ProgressOneMore(b, before, CurrentBooks(), chain, w, deals, i, attempts, consumed);
        if won {
          return Answered(chain[i].name);
        }
        consumed := consumed + called;
        attempts := attempts + [attempt];
      }
      ProgressDone(b, CurrentBooks(), chain, w, deals, attempts, consumed);
      return Exhausted(attempts, consumed);
    }

    /** `route_llm_request`: the first provider that answers wins; exhaustion is reported. */
    method RouteLlmRequest(chain: Chain, answers: nat -> Response, w: World, jobId: Option<nat>, step: Option<string>)
      returns (r: RouteResult)
      modifies this`usage, this`audits, this`errors, this`checkpoints, breakers
      ensures exists called :: // the audits before the exhaustion report
        && Finished(old(CurrentBooks()), Books(breakers.rows, usage, called), chain, w, RouteDeals(chain, answers, w), r)
        && audits == called + ExhaustionAudits(r)
      ensures errors == old(errors) + ExhaustionErrors(r)
      ensures checkpoints == old(checkpoints) + ExhaustionCheckpoints(r, jobId, step)
    {
      r := TryChain(chain, answers, w, RouteDeals(chain, answers, w));
      ghost var called := audits;
      if r.Exhausted? {
        Exhaust(jobId, step, r.consumed, r.attempts);
      }
      assert audits == called + ExhaustionAudits(r);
    }

    /** A misshapen reply is one more failure; it is followed by a repair, or by nothing. */
    method RecordMisshapen(p: Provider, reply: Reply, ghost trial: bool, ghost w: World, ghost replies: nat -> Reply,
                           ghost repairs: nat, ghost b: Books, ghost d: Deal, ghost used: nat, ghost failed: seq<string>)
      returns (errorType: string)
      modifies this`usage, this`audits
      requires reply == replies(used) && ShapeFailure(reply)
      requires Conversing(b, CurrentBooks(), p, replies, repairs, w.jitter(p.name), d, used, failed)
      ensures errorType == ShapeError(reply)
      ensures var next := failed + [errorType];
        if used < repairs then Conversing(b, CurrentBooks(), p, replies, repairs, w.jitter(p.name), d, used + 1, next)
        else
          && d == Deal(Unusable, next) && Conversed(b, CurrentBooks(), p, trial, w, d)
          && CallsMade(replies, 0, repairs) == used + 1
    {
      ghost var mid := CurrentBooks();
      errorType := ShapeError(reply);
      RecordFailure(p, errorType);
      ConverseOneMore(b, mid, CurrentBooks(), p, trial, w, replies, repairs, d, used, failed);
    }

    /** A reply of the right shape, or none at all, ends the calls. */
    method CallLast(p: Provider, trial: bool, response: Response, w: World, ghost replies: nat -> Reply,
                    ghost repairs: nat, ghost b: Books, ghost d: Deal, ghost used: nat, ghost failed: seq<string>)
      returns (won: bool, errorType: string)
      modifies this`usage, this`audits, breakers
      requires response == replies(used).response && !ShapeFailure(replies(used))
      requires Conversing(b, CurrentBooks(), p, replies, repairs, w.jitter(p.name), d, used, failed)
      ensures Conversed(b, CurrentBooks(), p, trial, w, d)
      ensures won <==> d.answer.Ok?
      ensures !won ==> d.failures != [] && errorType == d.failures[|d.failures| - 1]
      ensures CallsMade(replies, 0, repairs) == used + 1
    {
      ghost var mid := CurrentBooks();
      won, errorType := CallOnce(p, trial, response, w, RouteDeal(response, w.jitter(p.name)));
      ConversationEnds(b, mid, CurrentBooks(), p, trial, w, replies, repairs, d, used, failed);
    }

    /** The calls to one provider: repair prompts while the output is misshapen. */
    method Converse(p: Provider, trial: bool, replies: nat -> Reply, maxRepairs: int, w: World, ghost d: Deal)
      returns (won: bool, errorType: string, calls: nat)
      modifies this`usage, this`audits, breakers
      requires d == StructuredDeal(replies, maxRepairs, w.jitter(p.name))
      ensures Conversed(old(CurrentBooks()), CurrentBooks(), p, trial, w, d)
      ensures won <==> d.answer.Ok?
      ensures !won ==> d.failures != [] && errorType == d.failures[|d.failures| - 1]
      ensures calls == CallsMade(replies, 0, Max0(maxRepairs))
    {
      ghost var b := CurrentBooks();
      ghost var failed: seq<string> := [];
      ghost var jitter, repairs := w.jitter(p.name), Max0(maxRepairs);
      var repairsUsed := 0;
      calls := 0;
      ConversationStarts(b, p, replies, repairs, jitter);
      while true
        invariant calls == repairsUsed <= repairs
        invariant Conversing(b, CurrentBooks(), p, replies, repairs, jitter, d, repairsUsed, failed)
        decreases repairs - repairsUsed
      {
        var reply := replies(repairsUsed);
        calls := calls + 1;
        if !ShapeFailure(reply) {
          won, errorType := CallLast(p, trial, reply.response, w, replies, repairs, b, d, repairsUsed, failed);
          return;
        }
        errorType := RecordMisshapen(p, reply, trial, w, replies, repairs, b, d, repairsUsed, failed);
        failed := failed + [errorType];
        if repairsUsed >= maxRepairs {
          return false, errorType, calls;
        }
        repairsUsed := repairsUsed + 1;
      }
    }

    /** One provider in the structured lane. */
    method TryStructured(p: Provider, replies: nat -> Reply, maxRepairs: int, w: World, ghost d: Deal)
      returns (won: bool, called: seq<string>, attempt: Attempt)
      modifies this`usage, this`audits, breakers
      requires d == StructuredDeal(replies, maxRepairs, w.jitter(p.name))
      ensures Dealt(old(CurrentBooks()), CurrentBooks(), p, w, d)
      ensures won <==> Wins(p, RowIn(old(breakers.rows), p.name), w, d)
      ensures called == ConsumedOf(p, RowIn(old(breakers.rows), p.name), w)
      ensures !won ==> attempt == AttemptOf(p, RowIn(old(breakers.rows), p.name), w, d)
    {
      ghost var b := CurrentBooks();
      var ready, trial;
      ready, trial, attempt := PassGate(p, w);
      if !ready {
        StopAtGate(b, CurrentBooks(), p, w, d);
        return false, [], attempt;
      }
      ghost var mid := CurrentBooks();
      var errorType, calls;
      won, errorType, calls := Converse(p, trial, replies, maxRepairs, w, d);
      AdmitThenConverse(b, mid, CurrentBooks(), p, w, trial, d);
      called := [p.name];
      attempt := Attempt(p.name, CallFailed, errorType, true);
    }

    /** The loop over the chain, with repairs. */
    method TryStructuredChain(chain: Chain, replies: nat -> nat -> Reply, maxRepairs: int, w: World, ghost deals: Deals)
      returns (r: RouteResult)
      modifies this`usage, this`audits, breakers
      requires deals == StructuredDeals(chain, replies, maxRepairs, w)
      ensures Finished(old(CurrentBooks()), CurrentBooks(), chain, w, deals, r)
      ensures r.Exhausted? && r.attempts == [] ==> r.consumed == []
    {
      ghost var b := CurrentBooks();
      var consumed: seq<string> := [];
      var attempts: seq<Attempt> := [];
      ProgressStart(b, chain, w, deals);
      for i := 0 to |chain|
        invariant Progress(b, CurrentBooks(), chain, w, deals, i, attempts, consumed)
      {
        ghost var before := CurrentBooks();
        StructuredDealAt(chain, replies, maxRepairs, w, i);
        var won, called, attempt := TryStructured(chain[i], replies(i), maxRepairs, w, deals(i));
        ProgressOneMore(b, before, CurrentBooks(), chain, w, deals, i, attempts, consumed);
        if won {
          return Answered(chain[i].name);
        }
        consumed := consumed + called;
        attempts := attempts + [attempt];
      }
      ProgressDone(b, CurrentBooks(), chain, w, deals, attempts, consumed);
      return Exhausted(attempts, consumed);
    }

    /** `generate_structured`: the first provider whose output validates wins. */
    method GenerateStructured(chain: Chain, replies: nat -> nat -> Reply, maxRepairs: int, w: World,
                              jobId: Option<nat>, step: Option<string>)
      returns (r: RouteResult)
      modifies this`usage, this`audits, this`errors, this`checkpoints, breakers
      ensures exists called :: // the audits before the exhaustion report
        && Finished(old(CurrentBooks()), Books(breakers.rows, usage, called), chain, w, StructuredDeals(chain, replies, maxRepairs, w), r)
        && audits == called + ExhaustionAudits(r)
      ensures errors == old(errors) + ExhaustionErrors(r)
      ensures checkpoints == old(checkpoints) + ExhaustionCheckpoints(r, jobId, step)
    {
      r := TryStructuredChain(chain, replies, maxRepairs, w, StructuredDeals(chain, replies, maxRepairs, w));
      ghost var called := audits;
      if r.Exhausted? {
        Exhaust(jobId, step, r.consumed, r.attempts);
      }
      assert audits == called + ExhaustionAudits(r);
    }
  }
}
