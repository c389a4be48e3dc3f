/** Interleavings of a few requests for one provider that show what the guards do not
    prevent, and what a roll-back undoes. */
module BreakerRuns {
  import opened Wrappers
  import opened CircuitBreaker
  import opened BreakerHistory
  import opened BreakerProtocol
  import opened BreakerCounting

  lemma Two(s: System, a: Action, t: System, b: Action, u: System)
    requires Enabled(s, a) && Step(s, a) == t && Enabled(t, b) && Step(t, b) == u
    ensures From(s, [a, b]) == Some(u)
  {
    assert [] + [a] == [a] && [a] + [b] == [a, b];
    ExtendFrom(s, [], a, s);
    ExtendFrom(s, [a], b, t);
  }

  lemma Three(s: System, a: Action, t: System, b: Action, u: System, c: Action, v: System)
    requires Enabled(s, a) && Step(s, a) == t && Enabled(t, b) && Step(t, b) == u && Enabled(u, c) && Step(u, c) == v
    ensures From(s, [a, b, c]) == Some(v)
  {
    Two(s, a, t, b, u);
    assert [a, b] + [c] == [a, b, c];
    ExtendFrom(s, [a, b], c, u);
  }

  /** The same system with one request there. */
  function With(s: System, id: nat, now: Time, pc: Pc): System {
    s.(requests := s.requests[id := Request(now, pc)])
  }

  // ------------------------------------------------------------------ the pieces

  /** A rate-limited request opens the row. */
  function Opening(id: nat, p: string): seq<Action> {
    [Begin(id, 0.0), Observe(id, p), Receive(id, RateLimited(None, 1.0))] + [Update(id), Update(id), Commit(id)]
  }

  /** A later request sees it due. */
  function Looking(id: nat, p: string): seq<Action> {
    [Begin(id, 40.0), Observe(id, p)]
  }

  /** It gets the trial and succeeds; the reset is still to be made. */
  function Winning(id: nat): seq<Action> {
    [Update(id), Receive(id, Ok)]
  }

  /** A request hears a failure, finds no row, and is about to create one. */
  function Failing(id: nat, p: string): seq<Action> {
    [Begin(id, 0.0), Observe(id, p), Receive(id, Failed)] + [Update(id)]
  }

  function Throttled(): Cell {
    Cell(Some(Row(Open, 0, Some(30.0), Some(0.0))), [Throttle(0.0, None, 30.0)])
  }

  function OnTrial(): Cell {
    Cell(Some(Row(HalfOpen, 0, Some(100.0), Some(0.0))), [Throttle(0.0, None, 30.0), Claim(40.0)])
  }

  predicate Free(s: System, id: nat, p: string) {
    id !in s.requests && p !in s.undo && forall n | n in s.undo :: s.undo[n].id != id
  }

  lemma OpeningRun(s: System, id: nat, p: string)
    requires Free(s, id, p) && p !in s.cells
    ensures From(s, Opening(id, p)) == Some(s.(cells := s.cells[p := Throttled()]))
  {
    var answer := RateLimited(None, 1.0);
    var t := With(s, id, 0.0, Ensuring(p, false, None, 30.0));
    Three(s, Begin(id, 0.0), With(s, id, 0.0, Idle), Observe(id, p), With(s, id, 0.0, Calling(p, false)),
          Receive(id, answer), t);
    ThrottlingRun(s, t, id, p);
    FromConcat(s, [Begin(id, 0.0), Observe(id, p), Receive(id, answer)], [Update(id), Update(id), Commit(id)]);
  }

  lemma ThrottlingRun(s: System, t: System, id: nat, p: string)
    requires Free(s, id, p) && p !in s.cells
    requires t == With(s, id, 0.0, Ensuring(p, false, None, 30.0))
    ensures From(t, [Update(id), Update(id), Commit(id)]) == Some(s.(cells := s.cells[p := Throttled()]))
  {
    var u := System(s.cells[p := Cell(Some(NEW_ROW), [])], s.undo[p := Undo(id, NO_ROW, None)],
                    s.requests[id := Request(0.0, Throttling(p, false, None, 30.0))]);
    var v := System(s.cells[p := Throttled()], s.undo[p := Undo(id, NO_ROW, None)], s.requests[id := Request(0.0, Idle)]);
    assert UpdateStep(t, id) == u;
    Throttles(s, u, v, id, p);
    Three(t, Update(id), u, Update(id), v, Commit(id), s.(cells := s.cells[p := Throttled()]));
  }

  lemma Throttles(s: System, u: System, v: System, id: nat, p: string)
    requires Free(s, id, p) && p !in s.cells
    requires u == System(s.cells[p := Cell(Some(NEW_ROW), [])], s.undo[p := Undo(id, NO_ROW, None)],
                         s.requests[id := Request(0.0, Throttling(p, false, None, 30.0))])
    requires v == System(s.cells[p := Throttled()], u.undo, s.requests[id := Request(0.0, Idle)])
    ensures Enabled(u, Update(id)) && UpdateStep(u, id) == v
    ensures Released(v, id) == s.(cells := v.cells)
  {
    assert [] + Throttled().log == Throttled().log;
    assert UpdateStep(u, id).cells == v.cells && UpdateStep(u, id).requests == v.requests;
    assert Released(v, id).undo == s.undo && Released(v, id).requests == s.requests;
  }

  lemma LookingRun(s: System, id: nat, p: string)
    requires Free(s, id, p) && CellOf(s, p) == Throttled()
    ensures From(s, Looking(id, p)) == Some(With(s, id, 40.0, Claiming(p)))
  {
    var t := With(s, id, 40.0, Idle);
    assert Step(t, Observe(id, p)) == With(s, id, 40.0, Claiming(p));
    Two(s, Begin(id, 40.0), t, Observe(id, p), With(s, id, 40.0, Claiming(p)));
  }

  /** The trial is claimed; the row is locked until the request ends. */
  function Claimant(s: System, id: nat, p: string, pc: Pc): System {
    System(s.cells[p := OnTrial()], s.undo[p := Undo(id, Throttled(), None)], s.requests[id := Request(40.0, pc)])
  }

  predicate AboutToClaim(s: System, id: nat, p: string) {
    p !in s.undo && CellOf(s, p) == Throttled() && id in s.requests && s.requests[id] == Request(40.0, Claiming(p))
  }

  lemma ClaimStep(s: System, id: nat, p: string)
    requires AboutToClaim(s, id, p)
    ensures Enabled(s, Update(id)) && Step(s, Update(id)) == Claimant(s, id, p, Calling(p, true))
  {
    assert [Throttle(0.0, None, 30.0)] + [Claim(40.0)] == OnTrial().log;
  }

  lemma WinningRun(s: System, id: nat, p: string)
    requires AboutToClaim(s, id, p)
    ensures From(s, Winning(id)) == Some(Claimant(s, id, p, Resetting(p, true)))
  {
    ClaimStep(s, id, p);
    var t := Claimant(s, id, p, Calling(p, true));
    Two(s, Update(id), t, Receive(id, Ok), Claimant(s, id, p, Resetting(p, true)));
  }

  lemma ResetStep(s: System, id: nat, p: string)
    requires id in s.requests && s.requests[id].pc == Resetting(p, true) && Holds(s, id, p) && CellOf(s, p) == OnTrial()
    ensures var log := OnTrial().log + [Reset];
      ResetHits(s, id, p) && Step(s, Update(id)) == GoTo(s.(cells := s.cells[p := Cell(Some(NEW_ROW), log)]), id, Idle)
  {
  }

  // ---------------------------------------------------- a claim that comes too late

  /** The first request opens the row, and the second and third both see it due. */
  function Watching(p: string): seq<Action> {
    Opening(1, p) + Looking(2, p) + Looking(3, p)
  }

  function AfterWatching(p: string): System {
    System(map[p := Throttled()], map[], map[2 := Request(40.0, Claiming(p)), 3 := Request(40.0, Claiming(p))])
  }

  lemma WatchingRun(p: string)
    ensures After(Watching(p)) == Some(AfterWatching(p))
  {
    OpeningRun(INIT, 1, p);
    var s := INIT.(cells := INIT.cells[p := Throttled()]);
    LookingRun(s, 2, p);
    FromConcat(INIT, Opening(1, p), Looking(2, p));
    var t := With(s, 2, 40.0, Claiming(p));
    LookingRun(t, 3, p);
    FromConcat(INIT, Opening(1, p) + Looking(2, p), Looking(3, p));
  }

  /** Between looking and claiming a row may close again: the guard then refuses, and the
      request skips a healthy provider. */
  lemma LateClaimSkipsClosedRow(p: string)
    ensures var end := After(Watching(p) + Winning(3) + [Update(3), Commit(3)]);
      && end.Some? && Seen(end.value, 2, p).row.Some? && Seen(end.value, 2, p).row.value.state.Closed?
      && 2 in end.value.requests && end.value.requests[2].pc == Claiming(p)
      && Enabled(end.value, Update(2)) && Step(end.value, Update(2)).requests[2].pc == Idle
  {
    WatchingRun(p);
    WinningRun(AfterWatching(p), 3, p);
    FromConcat(INIT, Watching(p), Winning(3));
    var s := Claimant(AfterWatching(p), 3, p, Resetting(p, true));
    ResetStep(s, 3, p);
    var t := Step(s, Update(3));
    Two(s, Update(3), t, Commit(3), Released(t, 3));
    FromConcat(INIT, Watching(p) + Winning(3), [Update(3), Commit(3)]);
  }

  /** A claim that is rolled back: the waiting request gets the trial at once, although the
      first one has called the provider at the same request time. */
  lemma RolledBackClaimRepeats(p: string)
    ensures var end := After(Watching(p) + [Update(3), Abort(3), Update(2)]);
      end.Some? && 2 in end.value.requests && end.value.requests[2] == Request(40.0, Calling(p, true))
    ensures var claimed := After(Watching(p) + [Update(3)]);
      claimed.Some? && claimed.value.requests[3] == Request(40.0, Calling(p, true))
  {
    WatchingRun(p);
    var s := AfterWatching(p);
    ClaimStep(s, 3, p);
    Extend(Watching(p), Update(3), s);
    var claimed := Claimant(s, 3, p, Calling(p, true));
    var t := s.(requests := s.requests - {3});
    assert RolledBack(claimed, 3).cells == t.cells && RolledBack(claimed, 3).undo == t.undo;
    ClaimStep(t, 2, p);
    Three(s, Update(3), claimed, Abort(3), t, Update(2), Claimant(t, 2, p, Calling(p, true)));
    FromConcat(INIT, Watching(p), [Update(3), Abort(3), Update(2)]);
  }

  // ------------------------------------------------------- a count that comes too late

  /** A failure is heard before the row exists; the row is opened, tried and about to be
      reset by others. */
  function BeforeReset(p: string): seq<Action> {
    Failing(4, p) + Opening(1, p) + Looking(3, p) + Winning(3)
  }

  function Late(p: string): map<nat, Request> {
    map[4 := Request(0.0, Creating(p, false))]
  }

  lemma FailingRun(p: string)
    ensures After(Failing(4, p)) == Some(System(map[], map[], Late(p)))
  {
    var s := INIT;
    var t := With(s, 4, 0.0, Reading(p, false));
    Three(s, Begin(4, 0.0), With(s, 4, 0.0, Idle), Observe(4, p), With(s, 4, 0.0, Calling(p, false)), Receive(4, Failed), t);
    assert Step(t, Update(4)) == System(map[], map[], Late(p));
    Extend([Begin(4, 0.0), Observe(4, p), Receive(4, Failed)], Update(4), t);
  }

  lemma BeforeResetRun(p: string)
    ensures After(BeforeReset(p)) ==
      Some(Claimant(System(map[p := Throttled()], map[], Late(p)), 3, p, Resetting(p, true)))
  {
    var s := System(map[], map[], Late(p));
    FailingRun(p);
    OpeningRun(s, 1, p);
    FromConcat(INIT, Failing(4, p), Opening(1, p));
    var t := System(map[p := Throttled()], map[], Late(p));
    LookingRun(t, 3, p);
    FromConcat(INIT, Failing(4, p) + Opening(1, p), Looking(3, p));
    var u := With(t, 3, 40.0, Claiming(p));
    WinningRun(u, 3, p);
    FromConcat(INIT, Failing(4, p) + Opening(1, p) + Looking(3, p), Winning(3));
    assert Claimant(u, 3, p, Resetting(p, true)) == Claimant(t, 3, p, Resetting(p, true));
  }

  /** The row just after the reset, with the late request still to count. */
  function Reopened(p: string, pc: Pc): System {
    System(map[p := Cell(Some(NEW_ROW), OnTrial().log + [Reset])], map[], map[4 := Request(0.0, pc)])
  }

  /** Before that, the reset is not committed. */
  function Resettled(p: string): System {
    var t := Reopened(p, Creating(p, false));
    System(t.cells, map[p := Undo(3, Throttled(), None)], t.requests[3 := Request(40.0, Idle)])
  }

  function AfterReset(): seq<Action> {
    [Commit(3), Update(4), Update(4)]
  }

  lemma LateCount(p: string)
    ensures From(Resettled(p), AfterReset()).Some?
    ensures Failures(CellOf(From(Resettled(p), AfterReset()).value, p)) == 1
  {
    var r := Resettled(p);
    var s := Reopened(p, Creating(p, false));
    var t := Reopened(p, Adding(p, false, 0));
    assert Released(r, 3).undo == s.undo && Released(r, 3).requests == s.requests;
    assert UpdateStep(s, 4) == t;
    Three(r, Commit(3), s, Update(4), t, Update(4), UpdateStep(t, 4));
  }

  /** Runs in which no provider answers answer no failures. */
  lemma {:induction false} NothingAnswered(s: System, run: seq<Action>, p: string)
    requires From(s, run).Some? && forall i | 0 <= i < |run| :: !run[i].Receive?
    ensures Answered(s, run, p) == 0
  {
    if run != [] {
      NothingAnswered(s, run[..|run| - 1], p);
    }
  }

  /** The guard of the increment compares counts only: a failure heard before a reset is
      counted after it, so that the counter holds a failure that nobody has heard since. */
  lemma StaleCountAfterReset(p: string)
    ensures var s := After(BeforeReset(p));
      && s.Some? && ResetHits(s.value, 3, p) && Owing(s.value, p) == {4}
      && var t := Step(s.value, Update(3));
         && From(t, AfterReset()).Some? && Answered(t, AfterReset(), p) == 0
         && Failures(CellOf(t, p)) == 0 && Failures(CellOf(From(t, AfterReset()).value, p)) == 1
  {
    BeforeResetRun(p);
    var s := After(BeforeReset(p)).value;
    ResetStep(s, 3, p);
    assert Step(s, Update(3)) == Resettled(p);
    LateCount(p);
    NothingAnswered(Resettled(p), AfterReset(), p);
  }
}
