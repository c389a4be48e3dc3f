/** What the failure counter counts: over every run, against the failures that providers
    answered. */
module BreakerCounting {
  import opened Wrappers
  import opened CircuitBreaker
  import opened BreakerHistory
  import opened BreakerProtocol

  function Failures(c: Cell): int {
    OrNew(c.row).failures
  }

  // ------------------------------------------------------- answers and what they lead to

  function Heard(last: Option<(string, Answer)>, s: System, a: Action, id: nat): Option<(string, Answer)>
    requires Enabled(s, a)
  {
    match a
    case Receive(i, answer) => if i == id then Some((s.requests[i].pc.name, answer)) else last
    case Begin(i, _) => if i == id then None else last
    case NextCall(i, _) => if i == id then None else last
    case _ => last
  }

  /** The last answer of the request's present call, and the provider that gave it. */
  function LastHeard(run: seq<Action>, id: nat): Option<(string, Answer)>
    requires After(run).Some?
  {
    if run == [] then None
    else Heard(LastHeard(run[..|run| - 1], id), After(run[..|run| - 1]).value, run[|run| - 1], id)
  }

  /** The request has a failure of this provider still to count. */
  predicate Counts(pc: Pc, name: string) {
    (pc.Reading? || pc.Creating? || pc.Adding?) && pc.name == name
  }

  /** Only a server error or a timeout of that very provider leads to counting or tripping,
      only its success to a reset, only its 429 to a throttle. */
  predicate AnswerFits(pc: Pc, last: Option<(string, Answer)>) {
    && (pc.Reading? || pc.Creating? || pc.Adding? || pc.Tripping? ==> last == Some((pc.name, Failed)))
    && (pc.Resetting? ==> last == Some((pc.name, Ok)))
    && (pc.Ensuring? || pc.Throttling? ==> last.Some? && last.value.0 == pc.name && last.value.1.RateLimited?)
  }

  lemma StepAnswersFit(s: System, a: Action, id: nat, last: Option<(string, Answer)>)
    requires Enabled(s, a) && id in Step(s, a).requests
    requires id in s.requests ==> AnswerFits(s.requests[id].pc, last)
    ensures AnswerFits(Step(s, a).requests[id].pc, Heard(last, s, a, id))
  {
  }

  lemma {:induction false} AnswersFit(run: seq<Action>, id: nat)
    requires After(run).Some? && id in After(run).value.requests
    ensures AnswerFits(After(run).value.requests[id].pc, LastHeard(run, id))
  {
    if run != [] {
      var front := run[..|run| - 1];
      if id in After(front).value.requests {
        AnswersFit(front, id);
      }
      StepAnswersFit(After(front).value, run[|run| - 1], id, LastHeard(front, id));
    }
  }

  /** In every run an increment that hits finds its row off OPEN, and with the count that the
      request has read. */
  lemma CountHitsOffOpen(run: seq<Action>, id: nat, name: string)
    requires After(run).Some? && Enabled(After(run).value, Update(id))
    requires After(run).value.requests[id].pc.Adding? && After(run).value.requests[id].pc.name == name
    ensures var s := After(run).value;
      var row := Seen(s, id, name).row;
      CellOf(Step(s, Update(id)), name) != CellOf(s, name) <==>
        && row.Some? && (row.value.state == Closed || row.value.state == HalfOpen)
        && row.value.failures == s.requests[id].pc.current
  {
  }

  /** 429, unavailable providers, bad keys and misshapen answers never change a counter: in
      every run, a step that changes one is the counting step of a request whose last answer
      was a counted failure of that provider, the reset of one whose trial of it has just
      succeeded, or the undoing of what the request that holds the row wrote. */
  lemma CounterMovesOnlyByCounting(run: seq<Action>, a: Action, name: string)
    requires After(run).Some? && Enabled(After(run).value, a)
    requires Failures(CellOf(Step(After(run).value, a), name)) != Failures(CellOf(After(run).value, name))
    ensures var s := After(run).value;
      || (a.Update? && s.requests[a.id].pc.Adding? && LastHeard(run, a.id) == Some((name, Failed))
          && CellOf(s, name).row.Some? && CellOf(s, name).row.value.state != Open
          && Failures(CellOf(Step(s, a), name)) == Failures(CellOf(s, name)) + 1)
      || (a.Update? && s.requests[a.id].pc == Resetting(name, true) && LastHeard(run, a.id) == Some((name, Ok))
          && Failures(CellOf(Step(s, a), name)) == 0)
      || (a.Abort? && Holds(s, a.id, name) && CellOf(Step(s, a), name) == s.undo[name].before)
      || (a.AbortCall? && Holds(s, a.id, name) && CellOf(Step(s, a), name) == AtMark(s, name))
  {
    if a.Update? {
      AnswersFit(run, a.id);
      ResettersHoldTrials(run);
    }
  }

  // ------------------------------------------------------- no failure counts twice

  predicate HearsFailure(s: System, a: Action, name: string) {
    a.Receive? && a.answer.Failed? && a.id in s.requests && s.requests[a.id].pc.Calling? && s.requests[a.id].pc.name == name
  }

  predicate CountsAt(run: seq<Action>, k: nat, id: nat, name: string) {
    && k < |run| && run[k] == Update(id) && After(run[..k]).Some? && id in After(run[..k]).value.requests
    && After(run[..k]).value.requests[id].pc.Adding? && After(run[..k]).value.requests[id].pc.name == name
  }

  function StillOwes(owes: Option<string>, s: System, a: Action, id: nat): Option<string>
    requires Enabled(s, a)
  {
    match a
    case Receive(i, answer) =>
      if i != id then owes else if answer.Failed? then Some(s.requests[i].pc.name) else None
    case Update(i) => if i == id && s.requests[i].pc.Adding? then None else owes
    case Begin(i, _) => if i == id then None else owes
    case _ => owes
  }

  /** The provider of the failure the request has heard and not counted since. */
  function Uncounted(run: seq<Action>, id: nat): Option<string>
    requires After(run).Some?
  {
    if run == [] then None
    else StillOwes(Uncounted(run[..|run| - 1], id), After(run[..|run| - 1]).value, run[|run| - 1], id)
  }

  lemma StepOwes(s: System, a: Action, id: nat, owes: Option<string>)
    requires Enabled(s, a) && id in Step(s, a).requests
    requires id in s.requests ==> forall name | Counts(s.requests[id].pc, name) :: owes == Some(name)
    ensures forall name | Counts(Step(s, a).requests[id].pc, name) :: StillOwes(owes, s, a, id) == Some(name)
  {
  }

  lemma {:induction false} CountersOwe(run: seq<Action>, id: nat, name: string)
    requires After(run).Some? && id in After(run).value.requests && Counts(After(run).value.requests[id].pc, name)
    ensures Uncounted(run, id) == Some(name)
  {
    if run != [] {
      var front := run[..|run| - 1];
      var s := After(front).value;
      if id in s.requests {
        forall n | Counts(s.requests[id].pc, n) ensures Uncounted(front, id) == Some(n) {
          CountersOwe(front, id, n);
        }
      }
      StepOwes(s, run[|run| - 1], id, Uncounted(front, id));
    }
  }

  /** An uncounted failure is an answer of the run, after every earlier count of the request. */
  lemma {:induction false} UncountedAnswer(run: seq<Action>, id: nat, name: string, k: nat, other: string) returns (j: nat)
    requires After(run).Some? && Uncounted(run, id) == Some(name) && k <= |run|
    requires k < |run| ==> CountsAt(run, k, id, other)
    ensures j < |run| && run[j] == Receive(id, Failed) && (k < |run| ==> k < j)
    ensures After(run[..j]).Some? && HearsFailure(After(run[..j]).value, run[j], name)
  {
    var n := |run| - 1;
    var front := run[..n];
    if run[n] == Receive(id, Failed) {
      j := n;
    } else {
      assert k < n ==> front[..k] == run[..k];
      j := UncountedAnswer(front, id, name, if k < n then k else n, other);
      assert front[..j] == run[..j];
    }
  }

  /** Before every counting step for a provider, and since the request's last counting step
      for any, the request has heard a failure from that very provider. */
  lemma EachFailureCountsOnce(run: seq<Action>, first: nat, second: nat, id: nat, other: string, name: string) returns (j: nat)
    requires CountsAt(run, second, id, name) && first <= second
    requires first < second ==> CountsAt(run, first, id, other)
    ensures j < second && run[j] == Receive(id, Failed) && (first < second ==> first < j)
    ensures After(run[..j]).Some? && HearsFailure(After(run[..j]).value, run[j], name)
  {
    var front := run[..second];
    CountersOwe(front, id, name);
    if first < second {
      assert front[..first] == run[..first];
    }
    j := UncountedAnswer(front, id, name, if first < second then first else |front|, other);
    assert front[..j] == run[..j];
  }

  // ------------------------------------------------------------------- never over-counts

  /** The requests that have heard a failure of this provider and not counted it yet. */
  function Owing(s: System, name: string): set<nat> {
    set id | id in s.requests && Counts(s.requests[id].pc, name)
  }

  function Adds(s: System, a: Action, name: string): nat {
    if HearsFailure(s, a, name) then 1 else 0
  }

  /** The failures a provider answers in a run that starts from s. */
  function Answered(s: System, run: seq<Action>, name: string): nat
    requires From(s, run).Some?
  {
    if run == [] then 0
    else
      var front := run[..|run| - 1];
      Answered(s, front, name) + Adds(From(s, front).value, run[|run| - 1], name)
  }

  /** Counter and uncounted failures together, in a version of the row. */
  function Charged(s: System, name: string, c: Cell): int {
    Failures(c) + |Owing(s, name)|
  }

  /** The row can be put back, other than by the request whose undoing is left out. */
  predicate Undoable(s: System, name: string, apart: Option<nat>) {
    name in s.undo && apart != Some(s.undo[name].id)
  }

  /** No version of the row, current or put aside, is charged with more. */
  predicate Within(s: System, name: string, apart: Option<nat>, bound: int) {
    && Charged(s, name, CellOf(s, name)) <= bound
    && (Undoable(s, name, apart) ==>
          Charged(s, name, s.undo[name].before) <= bound && Charged(s, name, AtMark(s, name)) <= bound)
  }

  predicate Undoes(a: Action, apart: Option<nat>) {
    (a.Abort? || a.AbortCall?) && apart == Some(a.id)
  }

  lemma DifferByOne(a: set<nat>, b: set<nat>, x: nat)
    requires forall y | y != x :: y in a <==> y in b
    ensures |b| == |a| + (if x in b && x !in a then 1 else if x in a && x !in b then -1 else 0)
  {
    if x in a && x !in b {
      assert a == b + {x};
    } else if x in b && x !in a {
      assert b == a + {x};
    } else {
      assert a == b;
    }
  }

  lemma OwingMoves(s: System, t: System, id: nat, name: string)
    requires forall i | i != id :: i in t.requests <==> i in s.requests
    requires forall i | i != id && i in s.requests :: t.requests[i].pc == s.requests[i].pc
    ensures var owed, owes := id in Owing(s, name), id in Owing(t, name);
      |Owing(t, name)| == |Owing(s, name)| + (if owes && !owed then 1 else if owed && !owes then -1 else 0)
  {
    DifferByOne(Owing(s, name), Owing(t, name), id);
  }

  lemma NotNegative(s: System, name: string)
    requires Inv(s)
    ensures Failures(CellOf(s, name)) >= 0
  {
  }

  /** Only the request itself can stop owing, and only then does the counter rise, by one. */
  lemma UpdateCounts(s: System, id: nat, name: string)
    requires Inv(s) && Enabled(s, Update(id))
    ensures var t := UpdateStep(s, id);
      && (id in Owing(t, name) ==> id in Owing(s, name))
      && Failures(CellOf(t, name)) <= Failures(CellOf(s, name)) + (if id in Owing(s, name) && id !in Owing(t, name) then 1 else 0)
  {
    NotNegative(s, name);
  }

  /** A counting step moves a failure from uncounted to counted, or drops it. */
  lemma UpdateCharges(s: System, id: nat, name: string)
    requires Inv(s) && Enabled(s, Update(id))
    ensures var t := UpdateStep(s, id);
      && |Owing(t, name)| <= |Owing(s, name)|
      && Charged(t, name, CellOf(t, name)) <= Charged(s, name, CellOf(s, name))
  {
    OwingMoves(s, UpdateStep(s, id), id, name);
    UpdateCounts(s, id, name);
  }

  lemma OtherCharges(s: System, a: Action, name: string)
    requires Enabled(s, a) && !a.Update?
    ensures |Owing(Step(s, a), name)| <= |Owing(s, name)| + Adds(s, a, name)
  {
    OwingMoves(s, Step(s, a), a.id, name);
  }

  /** An update puts at most the version it overwrites aside. */
  lemma UpdateVersions(s: System, id: nat, name: string)
    requires Enabled(s, Update(id)) && name in UpdateStep(s, id).undo
    ensures var t := UpdateStep(s, id);
      if name in s.undo then t.undo[name] == s.undo[name] else t.undo[name].before == AtMark(t, name) == CellOf(s, name)
  {
  }

  /** Other steps only bring back a version that was put aside, and mark the current one. */
  lemma OtherVersions(s: System, a: Action, name: string)
    requires Inv(s) && Enabled(s, a) && !a.Update?
    ensures var t := Step(s, a);
      && (name in t.undo ==>
            && name in s.undo && t.undo[name].id == s.undo[name].id && t.undo[name].before == s.undo[name].before
            && (AtMark(t, name) == AtMark(s, name) || AtMark(t, name) == CellOf(s, name)))
      && (CellOf(t, name) == CellOf(s, name) ||
            ((a.Abort? || a.AbortCall?) && Holds(s, a.id, name)
             && (CellOf(t, name) == s.undo[name].before || CellOf(t, name) == AtMark(s, name))))
  {
  }

  /** Every step keeps all versions within the bound, raised by one for a failure answered. */
  lemma StepWithin(s: System, a: Action, name: string, apart: Option<nat>, bound: int)
    requires Inv(s) && Enabled(s, a) && Within(s, name, apart, bound) && !Undoes(a, apart)
    ensures Within(Step(s, a), name, apart, bound + Adds(s, a, name))
  {
    if a.Update? {
      UpdateCharges(s, a.id, name);
      if name in Step(s, a).undo {
        UpdateVersions(s, a.id, name);
      }
    } else {
      OtherCharges(s, a, name);
      OtherVersions(s, a, name);
    }
  }

  lemma {:induction false} RunKeepsInv(s: System, run: seq<Action>)
    requires Inv(s) && From(s, run).Some?
    ensures Inv(From(s, run).value)
  {
    if run != [] {
      RunKeepsInv(s, run[..|run| - 1]);
      StepKeepsInv(From(s, run[..|run| - 1]).value, run[|run| - 1]);
    }
  }

  lemma {:induction false} RunWithin(s: System, run: seq<Action>, name: string, apart: Option<nat>, bound: int)
    requires Inv(s) && From(s, run).Some? && Within(s, name, apart, bound)
    requires forall k | 0 <= k < |run| :: !Undoes(run[k], apart)
    ensures Within(From(s, run).value, name, apart, bound + Answered(s, run, name))
  {
    if run != [] {
      var front := run[..|run| - 1];
      RunWithin(s, front, name, apart, bound);
      RunKeepsInv(s, front);
      StepWithin(From(s, front).value, run[|run| - 1], name, apart, bound + Answered(s, front, name));
    }
  }

  /** In every interleaving, whoever looks: the counter, with the failures heard and not yet
      counted, is at most the number of failures the provider has answered. */
  lemma NeverOvercounts(run: seq<Action>, observer: nat, name: string)
    requires After(run).Some?
    ensures var s := After(run).value;
      Failures(Seen(s, observer, name)) + |Owing(s, name)| <= Answered(INIT, run, name)
  {
    assert Owing(INIT, name) == {};
    RunWithin(INIT, run, name, None, 0);
  }

  /** The request is not undone. */
  predicate Keeps(run: seq<Action>, id: nat) {
    forall k | 0 <= k < |run| :: run[k] != Abort(id) && run[k] != AbortCall(id)
  }

  predicate ResetHits(s: System, id: nat, name: string) {
    && Enabled(s, Update(id)) && s.requests[id].pc.Resetting? && s.requests[id].pc.name == name
    && Tried(s, id).Hit?
  }

  /** Since a reset that is not undone: the counter, with the failures heard and not yet
      counted, is at most the failures answered since, plus those heard before the reset and
      not counted at it. */
  lemma CountedSinceLastReset(before: seq<Action>, id: nat, name: string, since: seq<Action>)
    requires After(before).Some? && ResetHits(After(before).value, id, name)
    requires From(Step(After(before).value, Update(id)), since).Some?
    requires Keeps(since, id)
    ensures var s := After(before).value;
      var t := Step(s, Update(id));
      var end := From(t, since).value;
      Failures(CellOf(end, name)) + |Owing(end, name)| <= Answered(t, since, name) + |Owing(s, name)|
  {
    var s := After(before).value;
    ReachableInv(before);
    StepKeepsInv(s, Update(id));
    UpdateCharges(s, id, name);
    RunWithin(Step(s, Update(id)), since, name, Some(id), |Owing(s, name)|);
  }
}
