/** A breaker row together with its history, and what one repository call of a request does
    to the version it sees. */
module BreakerHistory {
  import opened Wrappers
  import opened CircuitBreaker

  /** Where a request stands: the repository call it will make next, if any. */
  datatype Pc =
    | Idle
    | Claiming(name: string)
    | Calling(name: string, trial: bool)
    | Resetting(name: string, trial: bool)
    | Ensuring(name: string, trial: bool, retryAfter: Option<real>, cooldown: Time)
    | Throttling(name: string, trial: bool, retryAfter: Option<real>, cooldown: Time)
    | Reading(name: string, trial: bool)
    | Creating(name: string, trial: bool)
    | Adding(name: string, trial: bool, current: int)
    | Tripping(name: string, trial: bool)

  datatype Request = Request(now: Time, pc: Pc)

  /** The updates of a row that hit. */
  datatype Event =
    | Claim(at: Time)
    | CountTrip(at: Time)
    | Throttle(at: Time, retryAfter: Option<real>, cooldown: Time)
    | Reset
    | Counted

  datatype Cell = Cell(row: Option<Row>, log: seq<Event>)

  const NO_ROW := Cell(None, [])

  /** Whether the call updates the version it sees, and to what. */
  datatype Try = Miss | Hit(cell: Cell)

  function Put(c: Cell, row: Row, e: Event): Try {
    Hit(Cell(Some(row), c.log + [e]))
  }

  function Ensured(c: Cell): Try {
    if c.row.Some? then Miss else Hit(Cell(Some(NEW_ROW), c.log))
  }

  predicate Pending(r: Request) {
    !r.pc.Idle? && !r.pc.Calling?
  }

  function Attempt(c: Cell, r: Request): Try
    requires Pending(r)
  {
    match r.pc
    case Claiming(_) =>
      if c.row.Some? && CanClaim(c.row.value, r.now) then Put(c, Claimed(c.row.value, r.now), Claim(r.now)) else Miss
    case Resetting(_, trial) =>
      if c.row.Some? && CanMove(c.row.value, HalfOpen) then Put(c, NEW_ROW, Reset) else Miss
    case Ensuring(_, _, _, _) => Ensured(c)
    case Throttling(_, trial, after, cooldown) =>
      if c.row.Some? && CanMove(c.row.value, Observed(trial))
      then Put(c, Tripped(c.row.value, cooldown, r.now), Throttle(r.now, after, cooldown)) else Miss
    case Reading(_, _) => Miss
    case Creating(_, _) => Ensured(c)
    case Adding(_, _, current) =>
      if c.row.Some? && CanIncrement(c.row.value, current) then Put(c, Incremented(c.row.value, r.now), Counted) else Miss
    case Tripping(_, trial) =>
      if c.row.Some? && CanMove(c.row.value, Observed(trial))
      then Put(c, Tripped(c.row.value, r.now + COOLDOWN_FLOOR, r.now), CountTrip(r.now)) else Miss
  }

  function NextPc(c: Cell, r: Request): Pc
    requires Pending(r)
  {
    match r.pc
    case Claiming(name) => if Attempt(c, r).Hit? then Calling(name, true) else Idle
    case Resetting(_, _) => Idle
    case Ensuring(name, trial, after, cooldown) => Throttling(name, trial, after, cooldown)
    case Throttling(_, _, _, _) => Idle
    case Reading(name, trial) =>
      if c.row.Some? then Adding(name, trial, c.row.value.failures) else Creating(name, trial)
    case Creating(name, trial) => Adding(name, trial, 0)
    case Adding(name, trial, current) => if current + 1 >= TRIP_THRESHOLD then Tripping(name, trial) else Idle
    case Tripping(_, _) => Idle
  }

  // ------------------------------------------------------- reading the history

  predicate Moves(e: Event) {
    !e.Counted?
  }

  /** The last update that set the state and the cooldown. */
  function Standing(log: seq<Event>): Option<Event> {
    if log == [] then None
    else if Moves(log[|log| - 1]) then Some(log[|log| - 1])
    else Standing(log[..|log| - 1])
  }

  function CountedSinceReset(log: seq<Event>): nat {
    if log == [] then 0
    else
      match log[|log| - 1]
      case Reset => 0
      case Counted => CountedSinceReset(log[..|log| - 1]) + 1
      case _ => CountedSinceReset(log[..|log| - 1])
  }

  /** Row and history agree on the state and the cooldown. */
  predicate Agrees(r: Row, standing: Option<Event>) {
    match standing
    case None => r.state == Closed && r.cooldown == None
    case Some(Reset) => r.state == Closed && r.cooldown == None
    case Some(Claim(at)) => r.state == HalfOpen && r.cooldown == Some(at + TRIAL_WINDOW)
    case Some(CountTrip(at)) => r.state == Open && r.cooldown == Some(at + COOLDOWN_FLOOR)
    case Some(Throttle(_, _, cooldown)) => r.state == Open && r.cooldown == Some(cooldown)
    case Some(Counted) => false
  }

  /** No trip or reset strictly between two positions. */
  predicate QuietBetween(log: seq<Event>, i: nat, j: nat)
    requires i < j <= |log|
  {
    forall k | i < k < j && Moves(log[k]) :: log[k].Claim?
  }

  predicate ClaimsSpaced(log: seq<Event>) {
    forall i, j | 0 <= i < j < |log| && log[i].Claim? && log[j].Claim? && QuietBetween(log, i, j) ::
      log[i].at + TRIAL_WINDOW <= log[j].at
  }

  predicate ThrottlesBounded(log: seq<Event>) {
    forall i | 0 <= i < |log| && log[i].Throttle? ::
      WithinThrottle(log[i].cooldown, log[i].retryAfter, log[i].at)
  }

  ghost predicate RowAgrees(c: Cell) {
    match c.row
    case None => c.log == []
    case Some(r) => Agrees(r, Standing(c.log)) && r.failures == CountedSinceReset(c.log)
  }

  ghost predicate CellOk(c: Cell) {
    RowAgrees(c) && ClaimsSpaced(c.log) && ThrottlesBounded(c.log)
  }

  /** A cooldown the request carries comes from the 429 it is handling. */
  predicate PcOk(r: Request) {
    r.pc.Ensuring? || r.pc.Throttling? ==> WithinThrottle(r.pc.cooldown, r.pc.retryAfter, r.now)
  }

  // --------------------------------------------------------------- preservation

  lemma {:induction false} StandingPosition(log: seq<Event>, i: nat) returns (j: nat)
    requires i < |log| && Moves(log[i])
    ensures i <= j < |log| && Moves(log[j]) && Standing(log) == Some(log[j])
    ensures forall k | j < k < |log| :: !Moves(log[k])
  {
    if Moves(log[|log| - 1]) {
      j := |log| - 1;
    } else {
      j := StandingPosition(log[..|log| - 1], i);
    }
  }

  lemma {:induction false} FirstMover(log: seq<Event>) returns (i: nat)
    requires Standing(log).Some?
    ensures i < |log| && Moves(log[i])
  {
    if Moves(log[|log| - 1]) {
      i := |log| - 1;
    } else {
      i := FirstMover(log[..|log| - 1]);
    }
  }

  lemma AppendOther(log: seq<Event>, e: Event)
    requires ClaimsSpaced(log) && ThrottlesBounded(log) && !e.Claim?
    requires e.Throttle? ==> WithinThrottle(e.cooldown, e.retryAfter, e.at)
    ensures ClaimsSpaced(log + [e]) && ThrottlesBounded(log + [e])
  {
    var next := log + [e];
    assert forall k | 0 <= k < |log| :: next[k] == log[k];
    forall i, j | 0 <= i < j < |next| && next[i].Claim? && next[j].Claim? && QuietBetween(next, i, j)
      ensures next[i].at + TRIAL_WINDOW <= next[j].at
    {
      assert QuietBetween(log, i, j);
    }
  }

  /** A claim that hits comes at least a window after the last quiet claim. */
  lemma AppendClaim(log: seq<Event>, r: Row, now: Time)
    requires ClaimsSpaced(log) && ThrottlesBounded(log) && Agrees(r, Standing(log)) && CanClaim(r, now)
    ensures ClaimsSpaced(log + [Claim(now)]) && ThrottlesBounded(log + [Claim(now)])
  {
    var next := log + [Claim(now)];
    assert forall k | 0 <= k < |log| :: next[k] == log[k];
    forall i, j | 0 <= i < j < |next| && next[i].Claim? && next[j].Claim? && QuietBetween(next, i, j)
      ensures next[i].at + TRIAL_WINDOW <= next[j].at
    {
      if j < |log| {
        assert QuietBetween(log, i, j);
      } else {
        var p := StandingPosition(log, i);
        assert log[p].Claim?;
        if i < p {
          assert QuietBetween(log, i, p);
        }
      }
    }
  }

  lemma AppendedViews(log: seq<Event>, e: Event)
    ensures Standing(log + [e]) == if Moves(e) then Some(e) else Standing(log)
    ensures CountedSinceReset(log + [e]) ==
      if e.Reset? then 0 else CountedSinceReset(log) + (if e.Counted? then 1 else 0)
  {
    assert (log + [e])[..|log|] == log;
  }

  /** Whatever call hits, row and history stay in step. */
  lemma HitKeepsCell(c: Cell, r: Request)
    requires CellOk(c) && Pending(r) && PcOk(r) && Attempt(c, r).Hit?
    ensures CellOk(Attempt(c, r).cell)
  {
    var next := Attempt(c, r).cell;
    if !r.pc.Ensuring? && !r.pc.Creating? {
      var e := next.log[|c.log|];
      assert next.log == c.log + [e];
      AppendedViews(c.log, e);
      if r.pc.Claiming? {
        AppendClaim(c.log, c.row.value, r.now);
      } else {
        AppendOther(c.log, e);
      }
    }
  }

  lemma NextPcOk(c: Cell, r: Request)
    requires Pending(r) && PcOk(r)
    ensures PcOk(Request(r.now, NextPc(c, r)))
  {
  }

  /** The event that set the cooldown of a row. */
  lemma CooldownEvent(c: Cell) returns (j: nat)
    requires CellOk(c) && c.row.Some? && c.row.value.cooldown.Some?
    ensures j < |c.log| && Moves(c.log[j]) && Agrees(c.row.value, Some(c.log[j]))
    ensures c.log[j].Throttle? ==> WithinThrottle(c.log[j].cooldown, c.log[j].retryAfter, c.log[j].at)
  {
    j := FirstMover(c.log);
    j := StandingPosition(c.log, j);
  }
}
