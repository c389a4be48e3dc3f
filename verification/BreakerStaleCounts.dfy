/** When the counter can exceed the failures answered since a reset: exactly when somebody
    has heard a failure before it and not counted it yet. */
module BreakerStaleCounts {
  import opened Wrappers
  import opened CircuitBreaker
  import opened BreakerHistory
  import opened BreakerProtocol
  import opened BreakerCounting
  import opened BreakerRefinement
  import S = BreakerSequence

  // ------------------------------------------------------------- counters read are real

  ghost predicate CountsReal(s: System) {
    forall id | id in s.requests && s.requests[id].pc.Adding? :: s.requests[id].pc.current >= 0
  }

  lemma StepCountsReal(s: System, a: Action)
    requires Inv(s) && CountsReal(s) && Enabled(s, a)
    ensures CountsReal(Step(s, a))
  {
    var t := Step(s, a);
    forall id | id in t.requests && t.requests[id].pc.Adding? ensures t.requests[id].pc.current >= 0 {
      if a.id != id {
        assert s.requests[id] == t.requests[id];
      } else {
        SeenOk(s, id, s.requests[id].pc.name);
      }
    }
  }

  lemma {:induction false} ReachableCountsReal(run: seq<Action>)
    requires After(run).Some?
    ensures CountsReal(After(run).value)
  {
    if run != [] {
      ReachableCountsReal(run[..|run| - 1]);
      ReachableInv(run[..|run| - 1]);
      StepCountsReal(After(run[..|run| - 1]).value, run[|run| - 1]);
    }
  }

  // ------------------------------------------------------------------ raising the count

  /** Nothing but the row differs. */
  predicate SameRequests(s: System, t: System) {
    t.requests == s.requests && t.undo == s.undo
  }

  /** The run leads from s to t; the provider fails n times and nobody rolls back. */
  ghost predicate Leads(s: System, run: seq<Action>, t: System, name: string, n: nat) {
    From(s, run) == Some(t) && Onward(run) && Answered(s, run, name) == n && Inv(t)
  }

  lemma LeadsOn(s: System, a: seq<Action>, t: System, b: seq<Action>, u: System, name: string, m: nat, n: nat)
    requires Leads(s, a, t, name, m) && Leads(t, b, u, name, n)
    ensures Leads(s, a + b, u, name, m + n)
  {
    FromConcat(s, a, b);
    AnsweredConcat(s, a, b, name);
  }

  lemma {:induction false} AnsweredConcat(s: System, a: seq<Action>, b: seq<Action>, name: string)
    requires From(s, a).Some? && From(From(s, a).value, b).Some?
    ensures From(s, a + b).Some?
    ensures Answered(s, a + b, name) == Answered(s, a, name) + Answered(From(s, a).value, b, name)
    decreases |b|
  {
    FromConcat(s, a, b);
    if b == [] {
      assert a + b == a;
    } else {
      var front := b[..|b| - 1];
      AnsweredConcat(s, a, front, name);
      FromConcat(s, a, front);
      assert (a + b)[..|a + b| - 1] == a + front;
    }
  }

  /** One more undisturbed request. */
  lemma VisitLeads(s: System, name: string, v: S.Visit) returns (run: seq<Action>, t: System)
    requires Inv(s) && name !in s.undo && Legal(v.answer)
    ensures Leads(s, run, t, name, BreakerRefinement.Failing(RowOf(s, name), v.now, v.answer))
    ensures SameRequests(s, t) && RowOf(t, name) == AfterVisit(RowOf(s, name), v.now, v.answer)
  {
    var id := Unused(s.requests.Keys);
    run := VisitRun(s, id, name, v);
    t := From(s, run).value;
    RunKeepsInv(s, run);
  }

  /** A row that n failures from new can have led to. */
  predicate Raised(row: Option<Row>, n: nat) {
    && row.Some? && row.value.failures == n
    && (row.value.state.Closed? || (row.value.state.Open? && row.value.cooldown.Some? && n >= TRIP_THRESHOLD))
  }

  function DueAt(row: Row): Time {
    if row.cooldown.Some? then row.cooldown.value else 0.0
  }

  lemma {:induction false} FailTimes(s: System, name: string, n: nat) returns (run: seq<Action>, t: System)
    requires Inv(s) && name !in s.undo && RowOf(s, name) == Some(NEW_ROW)
    ensures Leads(s, run, t, name, n) && SameRequests(s, t) && Raised(RowOf(t, name), n)
  {
    if n == 0 {
      run, t := [], s;
    } else {
      var before, u := FailTimes(s, name, n - 1);
      var now := DueAt(RowOf(u, name).value);
      var more, v := VisitLeads(u, name, S.Visit(now, Failed));
      LeadsOn(s, before, u, more, v, name, n - 1, 1);
      run, t := before + more, v;
    }
  }

  /** From a new row to any count, off OPEN. */
  lemma RaiseTo(s: System, name: string, n: nat) returns (run: seq<Action>, t: System)
    requires Inv(s) && name !in s.undo && RowOf(s, name) == Some(NEW_ROW)
    ensures Leads(s, run, t, name, n) && SameRequests(s, t)
    ensures RowOf(t, name).Some? && CanIncrement(RowOf(t, name).value, n)
  {
    run, t := FailTimes(s, name, n);
    if RowOf(t, name).value.state.Open? {
      var now := DueAt(RowOf(t, name).value);
      var more, u := VisitLeads(t, name, S.Visit(now, Unusable));
      LeadsOn(s, run, t, more, u, name, n, 0);
      run, t := run + more, u;
    }
  }

  // ------------------------------------------------------------- the exact condition

  lemma OneStep(s: System, a: Action, t: System, name: string)
    requires Enabled(s, a) && Step(s, a) == t && !a.Receive?
    ensures From(s, [a]) == Some(t) && Answered(s, [a], name) == 0
  {
    assert [] + [a] == [a];
    ExtendFrom(s, [], a, s);
    AnsweredMore(s, [], a, name);
  }

  lemma UpdateLeads(s: System, id: nat, name: string)
    requires Inv(s) && Enabled(s, Update(id))
    ensures Leads(s, [Update(id)], UpdateStep(s, id), name, 0)
  {
    StepKeepsInv(s, Update(id));
    OneStep(s, Update(id), UpdateStep(s, id), name);
  }

  /** The late request has its turn: it comes to have read some count. */
  lemma ReadsCount(s: System, id: nat, name: string) returns (run: seq<Action>, t: System, count: nat)
    requires Inv(s) && CountsReal(s) && name !in s.undo && RowOf(s, name) == Some(NEW_ROW) && id in Owing(s, name)
    ensures Leads(s, run, t, name, 0) && t.cells == s.cells && t.undo == s.undo
    ensures id in t.requests && t.requests[id].pc.Adding?
    ensures t.requests[id].pc.name == name && t.requests[id].pc.current == count
  {
    if s.requests[id].pc.Adding? {
      run, t, count := [], s, s.requests[id].pc.current;
    } else {
      UpdateLeads(s, id, name);
      run, t, count := [Update(id)], UpdateStep(s, id), 0;
    }
  }

  lemma CountHits(s: System, id: nat, name: string)
    requires name !in s.undo && RowOf(s, name).Some? && id in s.requests && s.requests[id].pc.Adding?
    requires s.requests[id].pc.name == name && CanIncrement(RowOf(s, name).value, s.requests[id].pc.current)
    ensures Enabled(s, Update(id))
    ensures Failures(CellOf(UpdateStep(s, id), name)) == s.requests[id].pc.current + 1
  {
  }

  /** From a new row with a failure owed, the counter can overtake the answers. */
  lemma Overtakes(s: System, id: nat, name: string) returns (run: seq<Action>, t: System, n: nat)
    requires Inv(s) && CountsReal(s) && name !in s.undo && RowOf(s, name) == Some(NEW_ROW) && id in Owing(s, name)
    ensures Leads(s, run, t, name, n) && Failures(CellOf(t, name)) == n + 1
  {
    var first, u, count := ReadsCount(s, id, name);
    var second, v := RaiseTo(u, name, count);
    LeadsOn(s, first, u, second, v, name, 0, count);
    CountHits(v, id, name);
    UpdateLeads(v, id, name);
    LeadsOn(s, first + second, v, [Update(id)], UpdateStep(v, id), name, count, 0);
    run, t, n := first + second + [Update(id)], UpdateStep(v, id), count;
  }

  /** A reset that hits, and its commit. */
  lemma ResetCommits(s: System, id: nat, name: string)
    requires Inv(s) && CountsReal(s) && ResetHits(s, id, name)
    ensures var t := Step(s, Update(id));
      && Enabled(t, Commit(id)) && Leads(t, [Commit(id)], Released(t, id), name, 0) && CountsReal(Released(t, id))
      && name !in Released(t, id).undo && RowOf(Released(t, id), name) == Some(NEW_ROW)
      && Owing(Released(t, id), name) == Owing(s, name)
  {
    var t := Step(s, Update(id));
    StepKeepsInv(s, Update(id));
    StepCountsReal(s, Update(id));
    ResetRow(s, id, name);
    StepCountsReal(t, Commit(id));
    CommitLeads(t, id, name);
  }

  lemma ResetRow(s: System, id: nat, name: string)
    requires ResetHits(s, id, name)
    ensures var t := Step(s, Update(id));
      && Enabled(t, Commit(id)) && Holds(t, id, name) && RowOf(t, name) == Some(NEW_ROW)
      && Owing(Released(t, id), name) == Owing(s, name)
  {
  }

  lemma CommitLeads(t: System, id: nat, name: string)
    requires Inv(t) && Enabled(t, Commit(id))
    ensures Leads(t, [Commit(id)], Released(t, id), name, 0)
  {
    StepKeepsInv(t, Commit(id));
    OneStep(t, Commit(id), Released(t, id), name);
  }

  lemma OvertakesAfterReset(s: System, id: nat, name: string) returns (since: seq<Action>)
    requires Inv(s) && CountsReal(s) && ResetHits(s, id, name) && Owing(s, name) != {}
    ensures var t := Step(s, Update(id));
      && From(t, since).Some? && Onward(since)
      && Failures(CellOf(From(t, since).value, name)) == Answered(t, since, name) + 1
  {
    var late :| late in Owing(s, name);
    var t := Step(s, Update(id));
    ResetCommits(s, id, name);
    var run, v, n := Overtakes(Released(t, id), late, name);
    LeadsOn(t, [Commit(id)], Released(t, id), run, v, name, 0, n);
    since := [Commit(id)] + run;
  }

  /** The counter stays within the failures answered since the reset, whatever comes. */
  ghost predicate CountsOnlySince(t: System, id: nat, name: string) {
    forall since: seq<Action> | From(t, since).Some? && Keeps(since, id) ::
      Failures(CellOf(From(t, since).value, name)) <= Answered(t, since, name)
  }

  /** The counter counts only failures answered since the reset, in every run that does not
      undo the reset, if and only if nobody owed a failure when it hit. */
  lemma CountsOnlySinceIffNoneOwed(before: seq<Action>, id: nat, name: string)
    requires After(before).Some? && ResetHits(After(before).value, id, name)
    ensures var s := After(before).value;
      CountsOnlySince(Step(s, Update(id)), id, name) <==> Owing(s, name) == {}
  {
    var s := After(before).value;
    var t := Step(s, Update(id));
    if Owing(s, name) == {} {
      forall since: seq<Action> | From(t, since).Some? && Keeps(since, id)
        ensures Failures(CellOf(From(t, since).value, name)) <= Answered(t, since, name)
      {
        CountedSinceLastReset(before, id, name, since);
      }
    } else {
      ReachableInv(before);
      ReachableCountsReal(before);
      var since := OvertakesAfterReset(s, id, name);
      assert Keeps(since, id);
    }
  }
}
