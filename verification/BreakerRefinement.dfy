/** The two views of the breaker agree: requests one after another are interleavings in
    which each request runs and commits without interruption, whatever others have open. */
module BreakerRefinement {
  import opened Wrappers
  import opened CircuitBreaker
  import opened BreakerSequence
  import H = BreakerHistory
  import P = BreakerProtocol
  import C = BreakerCounting

  /** The request makes up to n pending repository calls, undisturbed. */
  function Settle(s: P.System, id: nat, n: nat): P.System
    decreases n
  {
    if n == 0 || !P.Waiting(s, id) then s else Settle(P.UpdateStep(s, id), id, n - 1)
  }

  predicate Legal(answer: Answer) {
    answer.RateLimited? ==> Jitter(answer.jitter)
  }

  function Admitted(s: P.System, id: nat, name: string): P.System
    requires P.Enabled(s, P.Observe(id, name))
  {
    Settle(P.Step(s, P.Observe(id, name)), id, 1)
  }

  /** A request deals with one provider, undisturbed. */
  function SoloVisit(s: P.System, id: nat, name: string, answer: Answer): P.System
    requires P.Enabled(s, P.Observe(id, name)) && Legal(answer)
  {
    var t := Admitted(s, id, name);
    if id in t.requests && t.requests[id].pc.Calling? then Settle(P.Step(t, P.Receive(id, answer)), id, 4) else t
  }

  // --------------------------------------------------------- what a solo visit does

  function RowOf(s: P.System, name: string): Option<Row> {
    P.CellOf(s, name).row
  }

  /** Nobody else holds the provider's row. */
  predicate Alone(s: P.System, id: nat, name: string) {
    id in s.requests && !P.HeldByOther(s, id, name)
  }

  /** Other providers' rows and other requests' locks are as they were. */
  ghost predicate Elsewhere(s: P.System, t: P.System, name: string) {
    forall n | n != name ::
      && P.CellOf(t, n) == P.CellOf(s, n) && (n in t.undo <==> n in s.undo)
      && (n in s.undo ==> t.undo[n] == s.undo[n])
  }

  /** From s to t the request has moved on to pc, left this row, and touched nothing else. */
  ghost predicate MovedOn(s: P.System, t: P.System, id: nat, name: string, pc: H.Pc, row: Option<Row>)
    requires id in s.requests
  {
    && Alone(t, id, name) && t.requests == s.requests[id := H.Request(s.requests[id].now, pc)]
    && RowOf(t, name) == row && Elsewhere(s, t, name)
  }

  lemma MovedTwice(s: P.System, t: P.System, u: P.System, id: nat, name: string,
                   pc: H.Pc, row: Option<Row>, last: H.Pc, lastRow: Option<Row>)
    requires id in s.requests && MovedOn(s, t, id, name, pc, row)
    requires MovedOn(t, u, id, name, last, lastRow)
    ensures MovedOn(s, u, id, name, last, lastRow)
  {
    assert u.requests == s.requests[id := H.Request(s.requests[id].now, last)];
  }

  lemma SettleNow(s: P.System, id: nat, n: nat)
    requires !P.Waiting(s, id)
    ensures Settle(s, id, n) == s
  {
  }

  lemma SettleOne(s: P.System, id: nat, n: nat)
    requires n > 0 && P.Waiting(s, id)
    ensures Settle(s, id, n) == Settle(P.UpdateStep(s, id), id, n - 1)
  {
  }

  /** One undisturbed call: the row becomes what the call makes of it. */
  lemma UpdateAlone(s: P.System, id: nat)
    requires P.Waiting(s, id) && Alone(s, id, s.requests[id].pc.name)
    ensures var r := s.requests[id];
      var c := P.CellOf(s, r.pc.name);
      MovedOn(s, P.UpdateStep(s, id), id, r.pc.name, H.NextPc(c, r),
              if H.Attempt(c, r).Hit? then H.Attempt(c, r).cell.row else c.row)
  {
  }

  lemma AdmittedRow(s: P.System, id: nat, name: string)
    requires Alone(s, id, name) && P.Enabled(s, P.Observe(id, name))
    ensures var admission := AdmissionOf(RowOf(s, name), s.requests[id].now);
      MovedOn(s, Admitted(s, id, name), id, name,
              if admission.Skip? then H.Idle else H.Calling(name, admission.trial),
              AfterAdmission(RowOf(s, name), s.requests[id].now))
  {
    var t := P.Step(s, P.Observe(id, name));
    if P.Waiting(t, id) {
      UpdateAlone(t, id);
      SettleOne(t, id, 1);
      assert Settle(P.UpdateStep(t, id), id, 0) == P.UpdateStep(t, id);
    } else {
      SettleNow(t, id, 1);
    }
  }

  lemma OkRow(s: P.System, id: nat, name: string, trial: bool)
    requires Alone(s, id, name) && s.requests[id].pc == H.Calling(name, trial)
    ensures MovedOn(s, Settle(P.Step(s, P.Receive(id, Ok)), id, 4), id, name, H.Idle, AfterSuccess(RowOf(s, name), trial))
  {
    var t := P.Step(s, P.Receive(id, Ok));
    if trial {
      UpdateAlone(t, id);
      SettleOne(t, id, 4);
      SettleNow(P.UpdateStep(t, id), id, 3);
    } else {
      SettleNow(t, id, 4);
    }
  }

  /** From the point where the row is there and about to be throttled. */
  lemma ThrottledRow(s: P.System, id: nat, name: string, trial: bool, cooldown: Time, n: nat)
    requires Alone(s, id, name) && s.requests[id].pc.Throttling? && n >= 1
    requires s.requests[id].pc.name == name && s.requests[id].pc.trial == trial && s.requests[id].pc.cooldown == cooldown
    requires RowOf(s, name).Some?
    ensures MovedOn(s, Settle(s, id, n), id, name, H.Idle,
                    Some(AfterRateLimit(RowOf(s, name), trial, cooldown, s.requests[id].now)))
  {
    UpdateAlone(s, id);
    SettleOne(s, id, n);
    SettleNow(P.UpdateStep(s, id), id, n - 1);
  }

  lemma RateLimitedRow(s: P.System, id: nat, name: string, trial: bool, answer: Answer)
    requires Alone(s, id, name) && s.requests[id].pc == H.Calling(name, trial) && answer.RateLimited? && Legal(answer)
    ensures MovedOn(s, Settle(P.Step(s, P.Receive(id, answer)), id, 4), id, name, H.Idle,
                    AfterAnswer(RowOf(s, name), trial, answer, s.requests[id].now))
  {
    var t := P.Step(s, P.Receive(id, answer));
    EnsuredRow(t, id);
    SettleOne(t, id, 4);
    ThrottledRow(P.UpdateStep(t, id), id, name, trial, t.requests[id].pc.cooldown, 3);
  }

  /** Ensuring a row: the one that is there, or a new one. */
  lemma EnsuredRow(s: P.System, id: nat)
    requires id in s.requests && (s.requests[id].pc.Ensuring? || s.requests[id].pc.Creating?)
    requires Alone(s, id, s.requests[id].pc.name)
    ensures var r := s.requests[id];
      MovedOn(s, P.UpdateStep(s, id), id, r.pc.name, H.NextPc(P.CellOf(s, r.pc.name), r),
              Some(OrNew(RowOf(s, r.pc.name))))
  {
    UpdateAlone(s, id);
  }

  /** From the point where the counter is about to be raised. */
  lemma CountedRow(s: P.System, id: nat, name: string, trial: bool, current: int, n: nat)
    requires Alone(s, id, name) && s.requests[id].pc == H.Adding(name, trial, current) && n >= 2
    requires RowOf(s, name).Some? && RowOf(s, name).value.failures == current
    ensures MovedOn(s, Settle(s, id, n), id, name, H.Idle, Some(AfterCountFailure(RowOf(s, name), trial, s.requests[id].now)))
  {
    var t, now := P.UpdateStep(s, id), s.requests[id].now;
    var counted := Some(if CanIncrement(RowOf(s, name).value, current) then Incremented(RowOf(s, name).value, now)
                        else RowOf(s, name).value);
    var pc := if current + 1 >= TRIP_THRESHOLD then H.Tripping(name, trial) else H.Idle;
    UpdateAlone(s, id);
    assert MovedOn(s, t, id, name, pc, counted);
    SettleOne(s, id, n);
    if pc.Tripping? {
      TrippedRow(t, id, name, trial, n - 1);
      MovedTwice(s, t, Settle(s, id, n), id, name, pc, counted, H.Idle, Some(AfterTrip(counted.value, trial, now)));
    } else {
      SettleNow(t, id, n - 1);
    }
  }

  function AfterTrip(row: Row, trial: bool, now: Time): Row {
    if CanMove(row, Observed(trial)) then Tripped(row, now + COOLDOWN_FLOOR, now) else row
  }

  lemma TrippedRow(s: P.System, id: nat, name: string, trial: bool, n: nat)
    requires Alone(s, id, name) && s.requests[id].pc == H.Tripping(name, trial) && n >= 1 && RowOf(s, name).Some?
    ensures MovedOn(s, Settle(s, id, n), id, name, H.Idle, Some(AfterTrip(RowOf(s, name).value, trial, s.requests[id].now)))
  {
    UpdateAlone(s, id);
    SettleOne(s, id, n);
    SettleNow(P.UpdateStep(s, id), id, n - 1);
  }

  lemma ReadRow(s: P.System, id: nat, name: string, trial: bool)
    requires Alone(s, id, name) && s.requests[id].pc == H.Reading(name, trial)
    ensures var pc := if RowOf(s, name).Some? then H.Adding(name, trial, RowOf(s, name).value.failures) else H.Creating(name, trial);
      MovedOn(s, P.UpdateStep(s, id), id, name, pc, RowOf(s, name))
  {
    UpdateAlone(s, id);
  }

  lemma CreatedRow(s: P.System, id: nat, name: string, trial: bool)
    requires Alone(s, id, name) && s.requests[id].pc == H.Creating(name, trial) && RowOf(s, name).None?
    ensures MovedOn(s, Settle(s, id, 3), id, name, H.Idle, Some(AfterCountFailure(None, trial, s.requests[id].now)))
  {
    var t, now := P.UpdateStep(s, id), s.requests[id].now;
    EnsuredRow(s, id);
    assert t.requests[id] == H.Request(now, H.Adding(name, trial, 0));
    SettleOne(s, id, 3);
    CountedRow(t, id, name, trial, 0, 2);
    CountsFromNew(trial, now);
    MovedTwice(s, t, Settle(s, id, 3), id, name, H.Adding(name, trial, 0), Some(NEW_ROW),
               H.Idle, Some(AfterCountFailure(None, trial, now)));
  }

  lemma CountsFromNew(trial: bool, now: Time)
    ensures AfterCountFailure(None, trial, now) == AfterCountFailure(Some(NEW_ROW), trial, now)
  {
  }

  /** From the point where the counter is about to be read. */
  lemma CountedFailureRow(s: P.System, id: nat, name: string, trial: bool)
    requires Alone(s, id, name) && s.requests[id].pc == H.Reading(name, trial)
    ensures MovedOn(s, Settle(s, id, 4), id, name, H.Idle,
                    Some(AfterCountFailure(RowOf(s, name), trial, s.requests[id].now)))
  {
    var t, row := P.UpdateStep(s, id), RowOf(s, name);
    ReadRow(s, id, name, trial);
    SettleOne(s, id, 4);
    if row.Some? {
      CountedRow(t, id, name, trial, row.value.failures, 3);
    } else {
      CreatedRow(t, id, name, trial);
    }
    MovedTwice(s, t, Settle(s, id, 4), id, name, t.requests[id].pc, row,
               H.Idle, Some(AfterCountFailure(row, trial, s.requests[id].now)));
  }

  lemma FailedRow(s: P.System, id: nat, name: string, trial: bool)
    requires Alone(s, id, name) && s.requests[id].pc == H.Calling(name, trial)
    ensures MovedOn(s, Settle(P.Step(s, P.Receive(id, Failed)), id, 4), id, name, H.Idle,
                    Some(AfterCountFailure(RowOf(s, name), trial, s.requests[id].now)))
  {
    CountedFailureRow(P.Step(s, P.Receive(id, Failed)), id, name, trial);
  }

  /** Undisturbed, a request has exactly the sequential effect on the provider's row. */
  lemma SoloVisitIsVisit(s: P.System, id: nat, name: string, answer: Answer)
    requires Alone(s, id, name) && P.Enabled(s, P.Observe(id, name)) && Legal(answer)
    ensures MovedOn(s, SoloVisit(s, id, name, answer), id, name, H.Idle,
                    AfterVisit(RowOf(s, name), s.requests[id].now, answer))
  {
    var t := Admitted(s, id, name);
    AdmittedRow(s, id, name);
    if t.requests[id].pc.Calling? {
      var trial := t.requests[id].pc.trial;
      match answer
      case Ok => OkRow(t, id, name, trial);
      case Unusable => SettleNow(P.Step(t, P.Receive(id, answer)), id, 4);
      case RateLimited(_, _) => RateLimitedRow(t, id, name, trial, answer);
      case Failed => FailedRow(t, id, name, trial);
    }
  }

  // ------------------------------------------------------------- and it is a run

  /** No request of the run rolls anything back. */
  predicate Onward(run: seq<P.Action>) {
    forall k | 0 <= k < |run| :: !run[k].Abort? && !run[k].AbortCall?
  }

  lemma {:induction false} SettleIsRun(s: P.System, run: seq<P.Action>, t: P.System, id: nat, name: string, n: nat)
    returns (more: seq<P.Action>)
    requires P.From(s, run) == Some(t) && Alone(t, id, name) && Onward(run)
    requires P.Waiting(t, id) ==> t.requests[id].pc.name == name
    ensures P.From(s, more) == Some(Settle(t, id, n)) && Onward(more)
    ensures C.Answered(s, more, name) == C.Answered(s, run, name)
    decreases n
  {
    if n == 0 || !P.Waiting(t, id) {
      more := run;
    } else {
      UpdateAlone(t, id);
      P.ExtendFrom(s, run, P.Update(id), t);
      AnsweredMore(s, run, P.Update(id), name);
      more := SettleIsRun(s, run + [P.Update(id)], P.UpdateStep(t, id), id, name, n - 1);
    }
  }

  lemma AnsweredMore(s: P.System, run: seq<P.Action>, a: P.Action, name: string)
    requires P.From(s, run).Some? && P.From(s, run + [a]).Some?
    ensures C.Answered(s, run + [a], name) == C.Answered(s, run, name) + C.Adds(P.From(s, run).value, a, name)
  {
    assert (run + [a])[..|run|] == run;
  }

  /** The failures a visit makes the provider answer. */
  function Failing(row: Option<Row>, now: Time, answer: Answer): nat {
    if answer.Failed? && !AdmissionOf(row, now).Skip? then 1 else 0
  }

  lemma SoloVisitIsRun(s: P.System, run: seq<P.Action>, t: P.System, id: nat, name: string, answer: Answer)
    returns (more: seq<P.Action>)
    requires P.From(s, run) == Some(t) && Onward(run)
    requires Alone(t, id, name) && P.Enabled(t, P.Observe(id, name)) && Legal(answer)
    ensures P.From(s, more) == Some(SoloVisit(t, id, name, answer)) && Onward(more)
    ensures C.Answered(s, more, name) == C.Answered(s, run, name) + Failing(RowOf(t, name), t.requests[id].now, answer)
  {
    P.ExtendFrom(s, run, P.Observe(id, name), t);
    AnsweredMore(s, run, P.Observe(id, name), name);
    more := SettleIsRun(s, run + [P.Observe(id, name)], P.Step(t, P.Observe(id, name)), id, name, 1);
    AdmittedRow(t, id, name);
    var u := Admitted(t, id, name);
    if u.requests[id].pc.Calling? {
      P.ExtendFrom(s, more, P.Receive(id, answer), u);
      AnsweredMore(s, more, P.Receive(id, answer), name);
      more := SettleIsRun(s, more + [P.Receive(id, answer)], P.Step(u, P.Receive(id, answer)), id, name, 4);
    }
  }

  /** A whole request for one provider, begun and committed while nobody else holds its row. */
  lemma VisitRun(s: P.System, id: nat, name: string, v: Visit) returns (run: seq<P.Action>)
    requires P.Inv(s) && id !in s.requests && name !in s.undo && Legal(v.answer)
    ensures P.From(s, run).Some? && Onward(run)
    ensures C.Answered(s, run, name) == Failing(RowOf(s, name), v.now, v.answer)
    ensures var t := P.From(s, run).value;
      && t.requests == s.requests && t.undo == s.undo
      && RowOf(t, name) == AfterVisit(RowOf(s, name), v.now, v.answer)
  {
    var t, u: P.System;
    run, t := BegunRun(s, id, name, v.now);
    SoloVisitIsVisit(t, id, name, v.answer);
    run := SoloVisitIsRun(s, run, t, id, name, v.answer);
    u := SoloVisit(t, id, name, v.answer);
    P.ExtendFrom(s, run, P.Commit(id), u);
    AnsweredMore(s, run, P.Commit(id), name);
    run := run + [P.Commit(id)];
    CommitFrees(s, u, id, name);
  }

  lemma BegunRun(s: P.System, id: nat, name: string, now: Time) returns (run: seq<P.Action>, t: P.System)
    requires id !in s.requests && name !in s.undo
    ensures P.From(s, run) == Some(t) && Onward(run) && C.Answered(s, run, name) == 0
    ensures Alone(t, id, name) && t == s.(requests := s.requests[id := H.Request(now, H.Idle)])
  {
    t := P.Step(s, P.Begin(id, now));
    P.ExtendFrom(s, [], P.Begin(id, now), s);
    AnsweredMore(s, [], P.Begin(id, now), name);
    run := [] + [P.Begin(id, now)];
  }

  lemma CommitFrees(s: P.System, u: P.System, id: nat, name: string)
    requires P.Inv(s) && id !in s.requests && name !in s.undo
    requires Elsewhere(s, u, name) && !P.HeldByOther(u, id, name)
    requires id in u.requests && u.requests == s.requests[id := u.requests[id]]
    ensures P.Released(u, id).undo == s.undo && P.Released(u, id).requests == s.requests
  {
    forall n | n in s.undo ensures n in u.undo && u.undo[n] == s.undo[n] && u.undo[n].id != id {
      assert n != name;
    }
    assert P.Released(u, id).requests == s.requests;
  }

  predicate LegalVisits(vs: seq<Visit>) {
    forall i | 0 <= i < |vs| :: Legal(vs[i].answer)
  }

  /** Every sequential history is an interleaving of committed requests, and leaves the same
      row: what holds in every interleaving holds of it. */
  lemma {:induction false} SequentialIsInterleaving(vs: seq<Visit>, name: string) returns (run: seq<P.Action>)
    requires LegalVisits(vs)
    ensures P.After(run).Some? && RowOf(P.After(run).value, name) == RowAfter(vs)
    ensures P.After(run).value.requests == map[] && P.After(run).value.undo == map[]
  {
    if vs == [] {
      run := [];
    } else {
      var n := |vs| - 1;
      var before := SequentialIsInterleaving(vs[..n], name);
      P.ReachableInv(before);
      var more := VisitRun(P.After(before).value, 0, name, vs[n]);
      P.FromConcat(P.INIT, before, more);
      run := before + more;
    }
  }
}
