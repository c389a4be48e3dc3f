/** The token and call budget of one extraction: four Door-4 calls and at most one Door-5
    call, each guarded before and charged after, and what each answer does to the run. */
module ExtractionBudget {

  const MAX_CALLS := 5
  const HEADROOM := 2048
  const DOOR4_SECTIONS := 4

  /** Why a run stops: the budget, the call cap, or JSON that is no object, whose missing
      `items` raises outside every handler. */
  datatype Failure = PreCall | CallCap | PostCall | NoItems

  datatype Outcome = Passed | Raised(why: Failure)

  /** The text of an answer, in the order in which the code looks at it: a refusal, no JSON,
      JSON that is no object, an object the section model rejects, one it accepts. */
  datatype Content = Refusal | NoJson | NotAnObject | WrongShape | Fitting

  /** What the router gave back: a failure, or an answer with its token counts (any integers). */
  datatype Reply = RouterFailed | Answered(promptTokens: int, completionTokens: int, content: Content)

  datatype Call = Call(planned: nat, reply: Reply)

  datatype Gap = SectionGap(section: nat) | TextSkipped | Door5BudgetSkip | Door5Failed

  /** How Doors 4 and 5 end, with the calls made and the tokens charged by then. */
  datatype Extraction =
    | Aborted(why: Failure, tokens: int, calls: nat)
    | Finished(tokens: int, calls: nat, gaps: seq<Gap>)

  // --------------------------------------------------------------- the tracker

  class BudgetTracker {
    const tokenBudget: int
    var usedTokens: int
    var callCount: nat

    constructor (budget: int)
      ensures tokenBudget == budget && usedTokens == 0 && callCount == 0
    {
      tokenBudget := budget;
      usedTokens := 0;
      callCount := 0;
    }

    predicate Fits(planned: int)
      reads this
    {
      usedTokens + planned + HEADROOM <= tokenBudget
    }

    method GuardPlan(planned: int) returns (o: Outcome)
      ensures o == if usedTokens + planned + 2048 <= tokenBudget then Passed else Raised(PreCall)
    {
      o := if Fits(planned) then Passed else Raised(PreCall);
    }

    method ConsumeCall() returns (o: Outcome)
      modifies this`callCount
      ensures o == if old(callCount) >= 5 then Raised(CallCap) else Passed
      ensures callCount == if o.Passed? then old(callCount) + 1 else old(callCount)
    {
      if callCount >= MAX_CALLS {
        return Raised(CallCap);
      }
      callCount := callCount + 1;
      return Passed;
    }

    /** Charges first, checks after: an overrun is raised with the charge already made. */
    method Accrue(promptTokens: int, completionTokens: int) returns (o: Outcome)
      modifies this`usedTokens
      ensures usedTokens == old(usedTokens) + promptTokens + completionTokens
      ensures o == if usedTokens + 2048 <= tokenBudget then Passed else Raised(PostCall)
    {
      usedTokens := usedTokens + (promptTokens + completionTokens);
      if usedTokens + HEADROOM > tokenBudget {
        return Raised(PostCall);
      }
      return Passed;
    }
  }

  // ------------------------------------------------------------- specification

  /** A failed Door-4 call is charged what it planned. */
  function Charge(c: Call): int {
    match c.reply
    case RouterFailed => c.planned
    case Answered(p, q, _) => p + q
  }

  function Spent(calls: seq<Call>): int {
    if calls == [] then 0 else Spent(calls[..|calls| - 1]) + Charge(calls[|calls| - 1])
  }

  predicate PlanFits(budget: int, used: int, c: Call) {
    used + c.planned + HEADROOM <= budget
  }

  predicate BadAnswer(r: Reply) {
    r.Answered? && r.content.NotAnObject?
  }

  /** Section k is neither refused before its call nor found over budget after it. */
  predicate WithinBudget(budget: int, calls: seq<Call>, k: nat)
    requires k < |calls|
  {
    PlanFits(budget, Spent(calls[..k]), calls[k]) && Spent(calls[..k + 1]) + HEADROOM <= budget
  }

  predicate Completes(budget: int, calls: seq<Call>, k: nat)
    requires k < |calls|
  {
    WithinBudget(budget, calls, k) && !BadAnswer(calls[k].reply)
  }

  predicate AllComplete(budget: int, calls: seq<Call>) {
    forall k | 0 <= k < |calls| :: Completes(budget, calls, k)
  }

  /** The call was made, but the section has nothing to merge. */
  predicate LeavesGap(r: Reply) {
    r.RouterFailed? || !r.content.Fitting?
  }

  /** The gaps of the first n sections, in order. */
  function SectionGaps(calls: seq<Call>, n: nat): seq<Gap>
    requires n <= |calls|
  {
    if n == 0 then []
    else SectionGaps(calls, n - 1) + (if LeavesGap(calls[n - 1].reply) then [SectionGap(n - 1)] else [])
  }

  /** What Door 5 records, by the tokens used before it: nothing for a refusal or a text
      without JSON. */
  function Door5Gaps(budget: int, used: int, c: Call): seq<Gap> {
    if !PlanFits(budget, used, c) then [Door5BudgetSkip]
    else if c.reply.RouterFailed? || used + Charge(c) + HEADROOM > budget || BadAnswer(c.reply) then [Door5Failed]
    else []
  }

  /** An answered Door-5 call is always counted, even when it overruns the budget. */
  function Door5Charge(c: Call): int {
    if c.reply.Answered? then Charge(c) else 0
  }

  lemma {:induction false} SpentStep(calls: seq<Call>, k: nat)
    requires k < |calls|
    ensures Spent(calls[..k + 1]) == Spent(calls[..k]) + Charge(calls[k])
  {
    assert calls[..k + 1][..k] == calls[..k];
  }

  /** Charging a failed call never overruns a budget whose guard has just let it pass. */
  lemma FailedChargeNeverRaises(budget: int, calls: seq<Call>, k: nat)
    requires k < |calls| && calls[k].reply.RouterFailed? && PlanFits(budget, Spent(calls[..k]), calls[k])
    ensures Completes(budget, calls, k)
  {
    SpentStep(calls, k);
  }

  // ----------------------------------------------------------------- the cascade

  method RunDoor4Section(tracker: BudgetTracker, c: Call) returns (o: Outcome, gap: bool)
    modifies tracker
    requires tracker.callCount < MAX_CALLS
    ensures var fits := old(tracker.usedTokens) + c.planned + 2048 <= tracker.tokenBudget;
      var charge := match c.reply case RouterFailed => c.planned case Answered(p, q, _) => p + q;
      && tracker.callCount == old(tracker.callCount) + (if fits then 1 else 0)
      && tracker.usedTokens == old(tracker.usedTokens) + (if fits then charge else 0)
      && o == (if !fits then Raised(PreCall)
               else if tracker.usedTokens + 2048 > tracker.tokenBudget then Raised(PostCall)
               else if c.reply.Answered? && c.reply.content.NotAnObject? then Raised(NoItems)
               else Passed)
    ensures o == Raised(PostCall) ==> c.reply.Answered?
    ensures o.Passed? ==> (gap <==> c.reply.RouterFailed? || c.reply.content != Fitting)
  {
    gap := true;
    o := tracker.GuardPlan(c.planned);
    if o.Raised? { return; }
    o := tracker.ConsumeCall();
    if o.Raised? { return; }
    match c.reply
    case RouterFailed =>
      o := tracker.Accrue(c.planned, 0);
    case Answered(p, q, content) =>
      o := tracker.Accrue(p, q);
      if o.Raised? { return; }
      match content
      case Refusal =>
      case NoJson =>
      case NotAnObject => o := Raised(NoItems);
      case WrongShape =>
      case Fitting => gap := false;
  }

  /** The first section that does not complete, and why. */
  ghost predicate StopsAt(budget: int, sections: seq<Call>, k: nat, why: Failure)
    requires k < |sections|
  {
    && (forall j | 0 <= j < k :: Completes(budget, sections, j))
    && !Completes(budget, sections, k)
    && why == (if !PlanFits(budget, Spent(sections[..k]), sections[k]) then PreCall
               else if Spent(sections[..k + 1]) + HEADROOM > budget then PostCall
               else NoItems)
    && (why.PostCall? || why.NoItems? ==> sections[k].reply.Answered?)
  }

  /** The calls made when section k stops the run: its own is among them unless the guard
      refused it. */
  function CallsBy(k: nat, why: Failure): nat {
    if why.PreCall? then k else k + 1
  }

  ghost predicate StoppedAt(budget: int, sections: seq<Call>, k: nat, why: Failure, tokens: int, calls: nat)
    requires k < |sections|
  {
    StopsAt(budget, sections, k, why) && calls == CallsBy(k, why) && tokens == Spent(sections[..calls])
  }

  method RunDoor4(tracker: BudgetTracker, sections: seq<Call>) returns (o: Outcome, gaps: seq<Gap>)
    modifies tracker
    requires |sections| == DOOR4_SECTIONS && tracker.callCount == 0 && tracker.usedTokens == 0
    ensures o.Passed? <==> AllComplete(tracker.tokenBudget, sections)
    ensures o.Raised? ==> exists k | 0 <= k < DOOR4_SECTIONS ::
      StoppedAt(tracker.tokenBudget, sections, k, o.why, tracker.usedTokens, tracker.callCount)
    ensures o.Passed? ==> tracker.callCount == DOOR4_SECTIONS && tracker.usedTokens == Spent(sections)
    ensures o.Passed? ==> tracker.usedTokens + HEADROOM <= tracker.tokenBudget
    ensures o.Passed? ==> gaps == SectionGaps(sections, DOOR4_SECTIONS)
  {
    gaps := [];
    for k := 0 to DOOR4_SECTIONS
      invariant tracker.callCount == k && tracker.usedTokens == Spent(sections[..k])
      invariant forall j | 0 <= j < k :: Completes(tracker.tokenBudget, sections, j)
      invariant k > 0 ==> tracker.usedTokens + HEADROOM <= tracker.tokenBudget
      invariant gaps == SectionGaps(sections, k)
    {
      SpentStep(sections, k);
      var gap;
      o, gap := RunDoor4Section(tracker, sections[k]);
      if o.Raised? {
        assert StoppedAt(tracker.tokenBudget, sections, k, o.why, tracker.usedTokens, tracker.callCount);
        return;
      }
      assert Completes(tracker.tokenBudget, sections, k);
      if gap {
        gaps := gaps + [SectionGap(k)];
      }
    }
    assert sections[..DOOR4_SECTIONS] == sections;
    o := Passed;
  }

  /** Door 5 never raises: without room it is skipped, and an overrun or an answer that is no
      object is swallowed. */
  method RunDoor5(tracker: BudgetTracker, c: Call) returns (gaps: seq<Gap>)
    modifies tracker
    requires tracker.callCount < MAX_CALLS
    ensures var fits := old(tracker.usedTokens) + c.planned + 2048 <= tracker.tokenBudget;
      var charge := match c.reply case RouterFailed => 0 case Answered(p, q, _) => p + q;
      && tracker.callCount == old(tracker.callCount) + (if fits then 1 else 0)
      && tracker.usedTokens == old(tracker.usedTokens) + (if fits then charge else 0)
      && gaps == (if !fits then [Door5BudgetSkip]
                  else if c.reply.RouterFailed? then [Door5Failed]
                  else if tracker.usedTokens + 2048 > tracker.tokenBudget then [Door5Failed]
                  else if c.reply.content.NotAnObject? then [Door5Failed]
                  else [])
  {
    gaps := [];
    if !tracker.Fits(c.planned) {
      return [Door5BudgetSkip];
    }
    var guarded := tracker.GuardPlan(c.planned);
    var claimed := tracker.ConsumeCall();
    match c.reply
    case RouterFailed => gaps := [Door5Failed];
    case Answered(p, q, content) =>
      var o := tracker.Accrue(p, q);
      if o.Raised? || content.NotAnObject? {
        gaps := [Door5Failed];
      }
  }

  /** Doors 4 and 5 of `extract_job`, for any replies.  `skipText` is an injection hit or an
      empty text; `missing` says whether critical fields are still missing after Door 4. */
  method Extract(budget: int, skipText: bool, sections: seq<Call>, missing: bool, door5: Call)
    returns (r: Extraction)
    requires |sections| == DOOR4_SECTIONS
    // At most five calls, however it ends; the cap is never the reason.
    ensures r.calls <= MAX_CALLS && (r.Aborted? ==> !r.why.CallCap?)
    // Aborts exactly at the first section over budget or answered with JSON that is no object.
    ensures r.Aborted? <==> !skipText && !AllComplete(budget, sections)
    ensures r.Aborted? ==> exists k | 0 <= k < DOOR4_SECTIONS ::
      StoppedAt(budget, sections, k, r.why, r.tokens, r.calls)
    // Calls made, tokens reported, gaps recorded.
    ensures r.Finished? ==>
      var used := if skipText then 0 else Spent(sections);
      var runs5 := !skipText && missing && used + door5.planned + 2048 <= budget;
      && r.calls == (if skipText then 0 else DOOR4_SECTIONS) + (if runs5 then 1 else 0)
      && r.tokens == used + (if runs5 then Door5Charge(door5) else 0)
      && r.gaps == (if skipText then [TextSkipped] else SectionGaps(sections, DOOR4_SECTIONS))
                   + (if missing && !skipText then Door5Gaps(budget, used, door5) else [])
    // Door 4 leaves room for an answer.
    ensures r.Finished? && !skipText ==> Spent(sections) + HEADROOM <= budget
  {
    var tracker := new BudgetTracker(budget);
    var gaps: seq<Gap> := [];
    if !skipText {
      var o, sectionGaps := RunDoor4(tracker, sections);
      if o.Raised? {
        return Aborted(o.why, tracker.usedTokens, tracker.callCount);
      }
      gaps := sectionGaps;
    } else {
      gaps := [TextSkipped];
    }
    if missing && !skipText {
      var door5Gaps := RunDoor5(tracker, door5);
      gaps := gaps + door5Gaps;
    }
    return Finished(tracker.usedTokens, tracker.callCount, gaps);
  }

  // ------------------------------------------------------------- consequences

  function Share(c: Call): int {
    if Charge(c) > c.planned then Charge(c) else c.planned
  }

  function Shares(calls: seq<Call>): int {
    if calls == [] then 0 else Shares(calls[..|calls| - 1]) + Share(calls[|calls| - 1])
  }

  lemma {:induction false} SharesCover(calls: seq<Call>, k: nat)
    requires k <= |calls|
    ensures Spent(calls[..k]) <= Shares(calls[..k]) <= Shares(calls)
    decreases |calls|, k
  {
    if k == |calls| {
      assert calls[..k] == calls;
      if k > 0 {
        SharesCover(calls[..k - 1], k - 1);
        assert calls[..k - 1][..k - 1] == calls[..k - 1];
      }
    } else {
      SharesCover(calls[..|calls| - 1], k);
      assert calls[..|calls| - 1][..k] == calls[..k];
    }
  }

  /** Enough room for the larger of plan and charge of every call: Door 4 completes unless
      an answer is JSON but no object. */
  lemma EnoughBudgetCompletes(budget: int, calls: seq<Call>)
    requires Shares(calls) + HEADROOM <= budget
    ensures AllComplete(budget, calls) <==> forall k | 0 <= k < |calls| :: !BadAnswer(calls[k].reply)
  {
    forall k | 0 <= k < |calls| ensures WithinBudget(budget, calls, k) {
      SharesCover(calls, k);
      SharesCover(calls, k + 1);
      assert calls[..k + 1][..k] == calls[..k];
    }
    if AllComplete(budget, calls) {
      forall k | 0 <= k < |calls| ensures !BadAnswer(calls[k].reply) {
        assert Completes(budget, calls, k);
      }
    }
  }

  /** Calls that complete under a budget complete under any larger one. */
  lemma LargerBudgetCompletes(budget: int, larger: int, calls: seq<Call>)
    requires budget <= larger && AllComplete(budget, calls)
    ensures AllComplete(larger, calls)
  {
    forall k | 0 <= k < |calls| ensures Completes(larger, calls, k) {
      assert Completes(budget, calls, k);
    }
  }

  /** A section has a gap on record exactly when its call left nothing to merge. */
  lemma {:induction false} SectionGapsAre(calls: seq<Call>, n: nat, k: nat)
    requires n <= |calls|
    ensures SectionGap(k) in SectionGaps(calls, n) <==> k < n && LeavesGap(calls[k].reply)
  {
    if n > 0 {
      SectionGapsAre(calls, n - 1, k);
    }
  }
}
