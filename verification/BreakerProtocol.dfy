/** Any number of transactions, interleaved at each repository call. A transaction makes one
    router call or several, each with its own clock reading and savepoint: what it wrote is
    visible to itself only until it commits, the rows it wrote are locked, an abort puts them
    back, and an exception swallowed between two calls puts back what the last call wrote.
    Reads may be stale; only the guards count. */
module BreakerProtocol {
  import opened Wrappers
  import opened CircuitBreaker
  import opened BreakerHistory

  /** A locked row: the request that wrote it, what it was before, and what it was when the
      request's present router call began, if it was locked by then. */
  datatype Undo = Undo(id: nat, before: Cell, mark: Option<Cell>)

  datatype System = System(cells: map<string, Cell>, undo: map<string, Undo>, requests: map<nat, Request>)

  const INIT := System(map[], map[], map[])

  datatype Action =
    | Begin(id: nat, now: Time)
    | Observe(id: nat, name: string)              // get_breaker before a provider
    | Receive(id: nat, answer: Answer)            // the provider's answer
    | Update(id: nat)                             // the pending repository call
    | NextCall(id: nat, now: Time)                // another router call in the transaction
    | AbortCall(id: nat)                          // back to the savepoint of the present one
    | Commit(id: nat)
    | Abort(id: nat)

  // -------------------------------------------------------------------- visibility

  function CellOf(s: System, name: string): Cell {
    if name in s.cells then s.cells[name] else NO_ROW
  }

  predicate HeldByOther(s: System, id: nat, name: string) {
    name in s.undo && s.undo[name].id != id
  }

  predicate Holds(s: System, id: nat, name: string) {
    name in s.undo && s.undo[name].id == id
  }

  /** The version a request reads. */
  function Seen(s: System, id: nat, name: string): Cell {
    if HeldByOther(s, id, name) then s.undo[name].before else CellOf(s, name)
  }

  function Write(s: System, id: nat, name: string, cell: Cell): System {
    s.(cells := s.cells[name := cell],
       undo := if name in s.undo then s.undo else s.undo[name := Undo(id, CellOf(s, name), None)])
  }

  // --------------------------------------------------------------------- one step

  predicate Waiting(s: System, id: nat) {
    id in s.requests && Pending(s.requests[id])
  }

  function Tried(s: System, id: nat): Try
    requires Waiting(s, id)
  {
    Attempt(Seen(s, id, s.requests[id].pc.name), s.requests[id])
  }

  /** An update that would hit a row locked by another request waits for that lock. */
  predicate Blocked(s: System, id: nat)
    requires Waiting(s, id)
  {
    HeldByOther(s, id, s.requests[id].pc.name) && Tried(s, id).Hit?
  }

  predicate Enabled(s: System, a: Action) {
    match a
    case Begin(id, _) => id !in s.requests
    case Observe(id, _) => id in s.requests && s.requests[id].pc.Idle?
    case Receive(id, answer) =>
      id in s.requests && s.requests[id].pc.Calling? && (answer.RateLimited? ==> Jitter(answer.jitter))
    case Update(id) => Waiting(s, id) && !Blocked(s, id)
    case NextCall(id, _) => id in s.requests && s.requests[id].pc.Idle?
    case AbortCall(id) => id in s.requests
    case Commit(id) => id in s.requests && s.requests[id].pc.Idle?
    case Abort(id) => id in s.requests
  }

  function GoTo(s: System, id: nat, pc: Pc): System
    requires id in s.requests
  {
    s.(requests := s.requests[id := s.requests[id].(pc := pc)])
  }

  /** `_handle_breakers`, up to its claim. */
  function AfterObserve(c: Cell, now: Time, name: string): Pc {
    if c.row.None? || c.row.value.state.Closed? then Calling(name, false)
    else if c.row.value.state.Open? && c.row.value.cooldown.Some? && c.row.value.cooldown.value > now then Idle
    else Claiming(name)
  }

  function AfterReceive(r: Request, answer: Answer): Pc
    requires r.pc.Calling?
  {
    match answer
    case Ok => if r.pc.trial then Resetting(r.pc.name, true) else Idle
    case Unusable => Idle
    case RateLimited(after, j) =>
      Ensuring(r.pc.name, r.pc.trial, after, CooldownForRetryAfter(after, j, r.now))
    case Failed => Reading(r.pc.name, r.pc.trial)
  }

  function Written(s: System, id: nat): System
    requires Waiting(s, id)
  {
    match Tried(s, id)
    case Miss => s
    case Hit(cell) => Write(s, id, s.requests[id].pc.name, cell)
  }

  function UpdateStep(s: System, id: nat): System
    requires Waiting(s, id)
  {
    GoTo(Written(s, id), id, NextPc(Seen(s, id, s.requests[id].pc.name), s.requests[id]))
  }

  function Released(s: System, id: nat): System {
    s.(undo := map name | name in s.undo && s.undo[name].id != id :: s.undo[name], requests := s.requests - {id})
  }

  function RolledBack(s: System, id: nat): System {
    Released(s, id).(cells := map name | name in s.cells ::
      if Holds(s, id, name) then s.undo[name].before else s.cells[name])
  }

  /** A savepoint: the versions of the rows the request has locked so far. */
  function Marked(s: System, id: nat): System {
    s.(undo := map name | name in s.undo ::
      if s.undo[name].id == id then s.undo[name].(mark := Some(CellOf(s, name))) else s.undo[name])
  }

  /** The version a row goes back to when the request's present call is undone. */
  function AtMark(s: System, name: string): Cell
    requires name in s.undo
  {
    if s.undo[name].mark.Some? then s.undo[name].mark.value else s.undo[name].before
  }

  function CallUndone(s: System, id: nat): System {
    s.(cells := map name | name in s.cells :: if Holds(s, id, name) then AtMark(s, name) else s.cells[name],
       undo := map name | name in s.undo && !(s.undo[name].id == id && s.undo[name].mark.None?) :: s.undo[name])
  }

  function Step(s: System, a: Action): System
    requires Enabled(s, a)
  {
    match a
    case Begin(id, now) => s.(requests := s.requests[id := Request(now, Idle)])
    case Observe(id, name) => GoTo(s, id, AfterObserve(Seen(s, id, name), s.requests[id].now, name))
    case Receive(id, answer) => GoTo(s, id, AfterReceive(s.requests[id], answer))
    case Update(id) => UpdateStep(s, id)
    case NextCall(id, now) => var t := Marked(s, id); t.(requests := t.requests[id := Request(now, Idle)])
    case AbortCall(id) => GoTo(CallUndone(s, id), id, Idle)
    case Commit(id) => Released(s, id)
    case Abort(id) => RolledBack(s, id)
  }

  /** Where a run leads from a system, if each action was possible when taken. */
  function From(s: System, run: seq<Action>): Option<System> {
    if run == [] then Some(s)
    else
      match From(s, run[..|run| - 1])
      case None => None
      case Some(t) => if Enabled(t, run[|run| - 1]) then Some(Step(t, run[|run| - 1])) else None
  }

  function After(run: seq<Action>): Option<System> {
    From(INIT, run)
  }

  lemma {:induction false} FromConcat(s: System, a: seq<Action>, b: seq<Action>)
    requires From(s, a).Some?
    ensures From(s, a + b) == From(From(s, a).value, b)
    decreases |b|
  {
    if b == [] {
      assert a + b == a;
    } else {
      assert (a + b)[..|a + b| - 1] == a + b[..|b| - 1];
      FromConcat(s, a, b[..|b| - 1]);
    }
  }

  lemma ExtendFrom(s: System, run: seq<Action>, a: Action, t: System)
    requires From(s, run) == Some(t) && Enabled(t, a)
    ensures From(s, run + [a]) == Some(Step(t, a))
  {
    assert (run + [a])[..|run|] == run;
  }

  lemma Extend(run: seq<Action>, a: Action, s: System)
    requires After(run) == Some(s) && Enabled(s, a)
    ensures After(run + [a]) == Some(Step(s, a))
  {
    assert (run + [a])[..|run|] == run;
  }

  // ------------------------------------------------------------------ the invariant

  ghost predicate CellsOk(s: System) {
    forall name | name in s.cells :: CellOk(s.cells[name])
  }

  ghost predicate UndoOk(s: System) {
    forall name | name in s.undo ::
      && name in s.cells && s.undo[name].id in s.requests
      && CellOk(s.undo[name].before) && CellOk(AtMark(s, name))
  }

  ghost predicate RequestsOk(s: System) {
    forall id | id in s.requests :: PcOk(s.requests[id])
  }

  ghost predicate Inv(s: System) {
    CellsOk(s) && UndoOk(s) && RequestsOk(s)
  }

  lemma SeenOk(s: System, id: nat, name: string)
    requires Inv(s)
    ensures CellOk(Seen(s, id, name))
  {
  }

  lemma WriteKeepsInv(s: System, id: nat, name: string, cell: Cell)
    requires Inv(s) && id in s.requests && !HeldByOther(s, id, name) && CellOk(cell)
    ensures Inv(Write(s, id, name, cell))
  {
  }

  lemma GoToKeepsInv(s: System, id: nat, pc: Pc)
    requires Inv(s) && id in s.requests && PcOk(Request(s.requests[id].now, pc))
    ensures Inv(GoTo(s, id, pc))
  {
  }

  lemma UpdateKeepsInv(s: System, id: nat)
    requires Inv(s) && Enabled(s, Update(id))
    ensures Inv(UpdateStep(s, id))
  {
    var r := s.requests[id];
    var c := Seen(s, id, r.pc.name);
    SeenOk(s, id, r.pc.name);
    if Attempt(c, r).Hit? {
      HitKeepsCell(c, r);
      WriteKeepsInv(s, id, r.pc.name, Attempt(c, r).cell);
    }
    NextPcOk(c, r);
    GoToKeepsInv(Written(s, id), id, NextPc(c, r));
  }

  lemma EndKeepsInv(s: System, id: nat)
    requires Inv(s)
    ensures Inv(Released(s, id)) && Inv(RolledBack(s, id))
  {
  }

  lemma SavepointKeepsInv(s: System, id: nat)
    requires Inv(s)
    ensures Inv(Marked(s, id)) && Inv(CallUndone(s, id))
  {
    assert CellsOk(CallUndone(s, id));
    assert UndoOk(CallUndone(s, id));
  }

  lemma StepKeepsInv(s: System, a: Action)
    requires Inv(s) && Enabled(s, a)
    ensures Inv(Step(s, a))
  {
    match a
    case Begin(_, _) =>
    case Observe(id, name) => GoToKeepsInv(s, id, AfterObserve(Seen(s, id, name), s.requests[id].now, name));
    case Receive(id, answer) =>
      if answer.RateLimited? {
        ThrottleBounds(answer.retryAfter, answer.jitter, s.requests[id].now);
      }
      GoToKeepsInv(s, id, AfterReceive(s.requests[id], answer));
    case Update(id) => UpdateKeepsInv(s, id);
    case NextCall(id, now) => SavepointKeepsInv(s, id);
    case AbortCall(id) =>
      SavepointKeepsInv(s, id);
      GoToKeepsInv(CallUndone(s, id), id, Idle);
    case Commit(id) => EndKeepsInv(s, id);
    case Abort(id) => EndKeepsInv(s, id);
  }

  lemma {:induction false} ReachableInv(run: seq<Action>)
    requires After(run).Some?
    ensures Inv(After(run).value)
  {
    if run != [] {
      ReachableInv(run[..|run| - 1]);
      StepKeepsInv(After(run[..|run| - 1]).value, run[|run| - 1]);
    }
  }

  // ------------------------------------------- what every observer sees in every run

  /** In every interleaving, whoever looks: a row is CLOSED exactly when it has no cooldown,
      and its counter is the number of increments that hit it since its last reset. */
  lemma ReachableRows(run: seq<Action>, id: nat, name: string)
    requires After(run).Some? && Seen(After(run).value, id, name).row.Some?
    ensures var c := Seen(After(run).value, id, name);
      && (c.row.value.state.Closed? <==> c.row.value.cooldown.None?)
      && c.row.value.failures == CountedSinceReset(c.log)
  {
    ReachableInv(run);
    SeenOk(After(run).value, id, name);
  }

  /** Trial claims on a row, with no trip or reset between them, are at least 60 s apart in
      request time: those committed, and the observer's own. */
  lemma TrialsSpaced(run: seq<Action>, id: nat, name: string, i: nat, j: nat)
    requires After(run).Some?
    requires var log := Seen(After(run).value, id, name).log;
      i < j < |log| && log[i].Claim? && log[j].Claim? && QuietBetween(log, i, j)
    ensures var log := Seen(After(run).value, id, name).log; log[i].at + 60.0 <= log[j].at
  {
    ReachableInv(run);
    SeenOk(After(run).value, id, name);
  }

  /** Every cooldown anyone sees comes from one request: a trial window, the floor after a
      third failure, or a jittered Retry-After. */
  lemma CooldownOrigin(run: seq<Action>, id: nat, name: string) returns (j: nat)
    requires After(run).Some? && Seen(After(run).value, id, name).row.Some?
    requires Seen(After(run).value, id, name).row.value.cooldown.Some?
    ensures var c := Seen(After(run).value, id, name);
      var cooldown := c.row.value.cooldown.value;
      && j < |c.log|
      && match c.log[j]
         case Claim(at) => cooldown == at + 60.0
         case CountTrip(at) => cooldown == at + 30.0
         case Throttle(at, retryAfter, _) => WithinThrottle(cooldown, retryAfter, at)
         case _ => false
  {
    ReachableInv(run);
    SeenOk(After(run).value, id, name);
    j := CooldownEvent(Seen(After(run).value, id, name));
  }

  // -------------------------------------------------------------- who moves a row

  /** The request is handling a provider whose row it saw CLOSED (or missing). */
  predicate SawClosed(pc: Pc) {
    !pc.Idle? && !pc.Claiming? && !pc.trial
  }

  predicate ResetsTrialsOnly(s: System) {
    forall id | id in s.requests && s.requests[id].pc.Resetting? :: s.requests[id].pc.trial
  }

  lemma StepResetsTrialsOnly(s: System, a: Action)
    requires ResetsTrialsOnly(s) && Enabled(s, a)
    ensures ResetsTrialsOnly(Step(s, a))
  {
    var t := Step(s, a);
    forall id | id in t.requests && t.requests[id].pc.Resetting? ensures t.requests[id].pc.trial {
      if a.id != id { assert s.requests[id] == t.requests[id]; }
    }
  }

  lemma {:induction false} ResettersHoldTrials(run: seq<Action>)
    requires After(run).Some?
    ensures ResetsTrialsOnly(After(run).value)
  {
    if run != [] {
      ResettersHoldTrials(run[..|run| - 1]);
      StepResetsTrialsOnly(After(run[..|run| - 1]).value, run[|run| - 1]);
    }
  }

  /** A request that saw CLOSED never moves a row that has left CLOSED. */
  lemma ClosedObserverNeverMoves(run: seq<Action>, id: nat, name: string)
    requires After(run).Some? && Enabled(After(run).value, Update(id))
    requires SawClosed(After(run).value.requests[id].pc)
    requires CellOf(After(run).value, name).row.Some? && !CellOf(After(run).value, name).row.value.state.Closed?
    ensures var before, after := CellOf(After(run).value, name).row.value, CellOf(Step(After(run).value, Update(id)), name).row;
      after.Some? && after.value.state == before.state && after.value.cooldown == before.cooldown
  {
    ResettersHoldTrials(run);
  }

  /** An attempted claim is admitted exactly when the row the request sees is off CLOSED and
      due, whatever happened since it looked. */
  lemma ClaimAdmittedIffDue(run: seq<Action>, id: nat)
    requires After(run).Some? && Enabled(After(run).value, Update(id))
    requires After(run).value.requests[id].pc.Claiming?
    ensures var s := After(run).value;
      var name := s.requests[id].pc.name;
      var row := Seen(s, id, name).row;
      Step(s, Update(id)).requests[id].pc == Calling(name, true) <==>
        && row.Some? && !row.value.state.Closed?
        && row.value.cooldown.Some? && row.value.cooldown.value <= s.requests[id].now
  {
    var s := After(run).value;
    var name := s.requests[id].pc.name;
    if Seen(s, id, name).row.Some? {
      ReachableRows(run, id, name);
    }
  }

  /** What a request does next when it looks at a row: it calls, it skips a row that is OPEN
      and not yet due, or it tries to claim the trial. */
  lemma LookDecides(s: System, id: nat, name: string)
    requires Enabled(s, Observe(id, name))
    ensures var row := Seen(s, id, name).row;
      Step(s, Observe(id, name)).requests[id].pc ==
        if row.None? || row.value.state == Closed then Calling(name, false)
        else if row.value.state == Open && row.value.cooldown.Some? && row.value.cooldown.value > s.requests[id].now then Idle
        else Claiming(name)
  {
  }

  /** What the row a request sees is after its pending call: each call has the guard and the
      effect of its statement, whatever else has happened since the request looked. */
  lemma CallsAreGuarded(s: System, id: nat)
    requires Enabled(s, Update(id))
    ensures var r := s.requests[id];
      var row := Seen(s, id, r.pc.name).row;
      Seen(Step(s, Update(id)), id, r.pc.name).row ==
        if row.None? then (if r.pc.Ensuring? || r.pc.Creating? then Some(Row(Closed, 0, None, None)) else None)
        else
          var was := row.value;
          match r.pc
          case Claiming(_) =>
            if was.state != Closed && (was.cooldown.None? || was.cooldown.value <= r.now)
            then Some(was.(state := HalfOpen, cooldown := Some(r.now + 60.0))) else row
          case Resetting(_, _) =>
            if was.state == HalfOpen then Some(Row(Closed, 0, None, None)) else row
          case Throttling(_, trial, _, cooldown) =>
            if was.state == (if trial then HalfOpen else Closed)
            then Some(Row(Open, was.failures, Some(cooldown), Some(r.now))) else row
          case Adding(_, _, current) =>
            if was.state != Open && was.failures == current
            then Some(was.(failures := current + 1, lastFailure := Some(r.now))) else row
          case Tripping(_, trial) =>
            if was.state == (if trial then HalfOpen else Closed)
            then Some(Row(Open, was.failures, Some(r.now + 30.0), Some(r.now))) else row
          case _ => row
  {
  }

  // ------------------------------------------------------------------ savepoints

  /** The request neither ends nor changes its router call. */
  predicate StaysInCall(a: Action, id: nat) {
    a.id != id || a.Observe? || a.Receive? || a.Update?
  }

  /** Since a savepoint of the request at system s: it still holds what it held, with the marks
      taken then, and the rows it has locked since have none. */
  ghost predicate SinceMark(s: System, t: System, id: nat, name: string) {
    && id in t.requests
    && (Holds(s, id, name) ==> Holds(t, id, name) && name in t.cells && t.undo[name].mark == Some(CellOf(s, name)))
    && (!Holds(s, id, name) && Holds(t, id, name) ==> name in t.cells && t.undo[name].mark == None)
  }

  lemma StepSinceMark(s: System, t: System, a: Action, id: nat, name: string)
    requires SinceMark(s, t, id, name) && Inv(t) && Enabled(t, a) && StaysInCall(a, id)
    ensures SinceMark(s, Step(t, a), id, name) && Step(t, a).requests[id].now == t.requests[id].now
  {
  }

  lemma {:induction false} RunSinceMark(s: System, t: System, run: seq<Action>, id: nat, name: string)
    requires SinceMark(s, t, id, name) && Inv(t) && From(t, run).Some?
    requires forall k | 0 <= k < |run| :: StaysInCall(run[k], id)
    ensures var u := From(t, run).value;
      SinceMark(s, u, id, name) && u.requests[id].now == t.requests[id].now && Inv(u)
  {
    if run != [] {
      var front := run[..|run| - 1];
      RunSinceMark(s, t, front, id, name);
      StepKeepsInv(From(t, front).value, run[|run| - 1]);
      StepSinceMark(s, From(t, front).value, run[|run| - 1], id, name);
    }
  }

  /** Undoing a router call, whatever happened during it: rows the request had written before
      are as they were when the call began, rows it has locked during it are free again and as
      they were before that, and the clock reading is that of the call. */
  lemma CallIsUndone(s: System, id: nat, now: Time, run: seq<Action>, name: string)
    requires Inv(s) && Enabled(s, NextCall(id, now)) && From(Step(s, NextCall(id, now)), run).Some?
    requires forall k | 0 <= k < |run| :: StaysInCall(run[k], id)
    ensures var u := From(Step(s, NextCall(id, now)), run).value;
      && Enabled(u, AbortCall(id))
      && var v := Step(u, AbortCall(id));
         && v.requests[id] == Request(now, Idle)
         && (Holds(s, id, name) ==> CellOf(v, name) == CellOf(s, name) && Holds(v, id, name))
         && (!Holds(s, id, name) && Holds(u, id, name) ==> CellOf(v, name) == u.undo[name].before && name !in v.undo)
         && (!Holds(u, id, name) ==> CellOf(v, name) == CellOf(u, name))
  {
    StepKeepsInv(s, NextCall(id, now));
    RunSinceMark(s, Step(s, NextCall(id, now)), run, id, name);
  }

  // ---------------------------------------------------------------- transactions

  /** What a request has written, nobody else sees before it commits. */
  lemma WritesInvisible(s: System, id: nat, other: nat, name: string)
    requires Inv(s) && Enabled(s, Update(id)) && id != other
    ensures Seen(Step(s, Update(id)), other, name) == Seen(s, other, name)
  {
  }

  /** An abort, or the undoing of one call, changes nothing that anyone else sees. */
  lemma AbortInvisible(s: System, id: nat, other: nat, name: string)
    requires Inv(s) && id in s.requests && id != other
    ensures Seen(Step(s, Abort(id)), other, name) == Seen(s, other, name)
    ensures Seen(Step(s, AbortCall(id)), other, name) == Seen(s, other, name)
  {
  }

  /** So a trial claim that is rolled back does not keep others away: a request that was
      waiting to claim, and for which the row was due, gets the trial at once. */
  lemma RolledBackClaimReopens(s: System, id: nat, other: nat, name: string)
    requires Inv(s) && id in s.requests && other in s.requests && id != other
    requires Holds(s, id, name) && s.requests[other].pc == Claiming(name)
    requires Seen(s, other, name).row.Some? && CanClaim(Seen(s, other, name).row.value, s.requests[other].now)
    ensures Blocked(s, other)
    ensures Enabled(Step(s, Abort(id)), Update(other))
    ensures Step(Step(s, Abort(id)), Update(other)).requests[other].pc == Calling(name, true)
  {
    AbortInvisible(s, id, other, name);
  }

  /** If it commits instead, the waiting claim hits exactly when the committed row is due. */
  lemma CommittedClaimDecides(s: System, id: nat, other: nat, name: string)
    requires Inv(s) && id in s.requests && other in s.requests && id != other && s.requests[id].pc.Idle?
    requires Holds(s, id, name) && s.requests[other].pc == Claiming(name)
    ensures var t := Step(s, Commit(id));
      && Enabled(t, Update(other))
      && (Step(t, Update(other)).requests[other].pc == Calling(name, true) <==>
            CellOf(s, name).row.Some? && CanClaim(CellOf(s, name).row.value, s.requests[other].now))
  {
  }
}
