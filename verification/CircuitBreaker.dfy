/** The circuit-breaker row of a provider and the guarded updates on it. */
module CircuitBreaker {
  import opened Wrappers

  /** Seconds; every request carries its own clock reading. */
  type Time = real

  const TRIP_THRESHOLD := 3
  const COOLDOWN_FLOOR: Time := 30.0
  const TRIAL_WINDOW: Time := 60.0

  datatype CircuitState = Closed | Open | HalfOpen

  datatype Row = Row(state: CircuitState, failures: int, cooldown: Option<Time>, lastFailure: Option<Time>)

  type Table = map<string, Row>

  const NEW_ROW := Row(Closed, 0, None, None)

  // --------------------------------------------------- guards and their effects

  predicate CanClaim(r: Row, now: Time) {
    r.state != Closed && (r.cooldown.None? || r.cooldown.value <= now)
  }

  function Claimed(r: Row, now: Time): Row {
    r.(state := HalfOpen, cooldown := Some(now + TRIAL_WINDOW))
  }

  predicate CanIncrement(r: Row, current: int) {
    r.state != Open && r.failures == current
  }

  function Incremented(r: Row, now: Time): Row {
    r.(failures := r.failures + 1, lastFailure := Some(now))
  }

  predicate CanMove(r: Row, observed: CircuitState) {
    r.state == observed
  }

  function Tripped(r: Row, cooldown: Time, now: Time): Row {
    r.(state := Open, cooldown := Some(cooldown), lastFailure := Some(now))
  }

  function Raised(r: Row, delta: int): Row {
    r.(failures := r.failures + delta)
  }

  // -------------------------------------------------------------- the repository

  /** The `rate_limit_state` rows of one user. */
  class BreakerTable {
    var rows: Table

    constructor ()
      ensures rows == map[]
    {
      rows := map[];
    }

    function GetBreaker(name: string): Option<Row>
      reads this
    {
      if name in rows then Some(rows[name]) else None
    }

    method EnsureBreaker(name: string)
      modifies this
      ensures rows == if name in old(rows) then old(rows) else old(rows)[name := Row(Closed, 0, None, None)]
    {
      if name !in rows {
        rows := rows[name := NEW_ROW];
      }
    }

    method ClaimTrial(name: string, now: Time) returns (hit: bool)
      modifies this
      ensures hit <==>
        && name in old(rows) && old(rows)[name].state in {Open, HalfOpen}
        && (old(rows)[name].cooldown.None? || old(rows)[name].cooldown.value <= now)
      ensures rows == if hit
        then old(rows)[name := old(rows)[name].(state := HalfOpen, cooldown := Some(now + 60.0))] else old(rows)
    {
      hit := name in rows && CanClaim(rows[name], now);
      if hit {
        rows := rows[name := Claimed(rows[name], now)];
      }
    }

    method IncrementFailure(name: string, current: int, now: Time) returns (hit: bool)
      modifies this
      ensures hit <==>
        name in old(rows) && old(rows)[name].state in {Closed, HalfOpen} && old(rows)[name].failures == current
      ensures rows == if hit
        then old(rows)[name := old(rows)[name].(failures := current + 1, lastFailure := Some(now))] else old(rows)
    {
      hit := name in rows && CanIncrement(rows[name], current);
      if hit {
        rows := rows[name := Incremented(rows[name], now)];
      }
    }

    method TripCircuit(name: string, delta: int, cooldown: Time, now: Time, observed: CircuitState) returns (hit: bool)
      modifies this
      ensures hit <==> name in old(rows) && old(rows)[name].state == observed
      ensures rows == if hit
        then old(rows)[name := Row(Open, old(rows)[name].failures + delta, Some(cooldown), Some(now))] else old(rows)
    {
      hit := name in rows && CanMove(rows[name], observed);
      if hit {
        rows := rows[name := Tripped(Raised(rows[name], delta), cooldown, now)];
      }
    }

    method ResetCircuit(name: string, observed: CircuitState) returns (hit: bool)
      modifies this
      ensures hit <==> name in old(rows) && old(rows)[name].state == observed
      ensures rows == if hit then old(rows)[name := Row(Closed, 0, None, None)] else old(rows)
    {
      hit := name in rows && CanMove(rows[name], observed);
      if hit {
        rows := rows[name := NEW_ROW];
      }
    }
  }

  // ------------------------------------------------------------------- cooldowns

  function Max(a: real, b: real): real {
    if a < b then b else a
  }

  /** `cooldown_for_retry_after`; the jitter factor is drawn per provider from [0.8, 1.2]. */
  function CooldownForRetryAfter(retryAfter: Option<real>, jitter: real, now: Time): Time {
    match retryAfter
    case None => now + COOLDOWN_FLOOR
    case Some(r) => now + Max(COOLDOWN_FLOOR, r * jitter)
  }

  predicate Jitter(j: real) {
    0.8 <= j <= 1.2
  }

  /** The range a 429 may set, for a Retry-After of r (RFC 9110, section 10.2.3). */
  predicate WithinThrottle(cooldown: Time, retryAfter: Option<real>, now: Time) {
    match retryAfter
    case None => cooldown == now + 30.0
    case Some(r) => now + Max(30.0, 0.8 * r) <= cooldown <= now + Max(30.0, 1.2 * r)
  }

  lemma ScaleMonotone(r: real, a: real, b: real, ra: real, rb: real)
    requires a <= b && r >= 0.0 && ra == r * a && rb == r * b
    ensures ra <= rb
  {
    var d := b - a;
    assert r * d >= 0.0;
    assert rb == ra + r * d;
  }

  /** Scaling by a jitter factor. */
  lemma ScaledBy(r: real, jitter: real, scaled: real)
    requires Jitter(jitter) && scaled == r * jitter
    ensures r >= 0.0 ==> 0.8 * r <= scaled <= 1.2 * r
    ensures r < 0.0 ==> scaled <= 0.0
  {
    if r >= 0.0 {
      ScaleMonotone(r, 0.8, jitter, 0.8 * r, scaled);
      ScaleMonotone(r, jitter, 1.2, scaled, 1.2 * r);
    } else {
      ScaleMonotone(-r, 0.0, jitter, 0.0, -scaled);
    }
  }

  /** A value within a factor of 0.8 to 1.2 of r, raised to the floor. */
  lemma FloorBounds(r: real, scaled: real)
    requires r >= 0.0 ==> 0.8 * r <= scaled <= 1.2 * r
    requires r < 0.0 ==> scaled <= 0.0
    ensures Max(30.0, 0.8 * r) <= Max(30.0, scaled) <= Max(30.0, 1.2 * r)
  {
  }

  lemma ThrottleBounds(retryAfter: Option<real>, jitter: real, now: Time)
    requires Jitter(jitter)
    ensures WithinThrottle(CooldownForRetryAfter(retryAfter, jitter, now), retryAfter, now)
  {
    if retryAfter.Some? {
      var r := retryAfter.value;
      ScaledBy(r, jitter, r * jitter);
      FloorBounds(r, r * jitter);
    }
  }

  // ------------------------------------------------ one provider, one request

  /** What the call to a provider came to. */
  datatype Answer =
    | Ok
    | Unusable                                    // unavailable, undecryptable key, wrong shape
    | RateLimited(retryAfter: Option<real>, jitter: real)
    | Failed                                      // server error or timeout

  datatype Admission = Skip | Admit(trial: bool)

  function AdmissionOf(row: Option<Row>, now: Time): Admission {
    if row.None? || row.value.state.Closed? then Admit(false)
    else if CanClaim(row.value, now) then Admit(true)
    else Skip
  }

  function AfterAdmission(row: Option<Row>, now: Time): Option<Row> {
    if AdmissionOf(row, now) == Admit(true) then Some(Claimed(row.value, now)) else row
  }

  function Observed(trial: bool): CircuitState {
    if trial then HalfOpen else Closed
  }

  function OrNew(row: Option<Row>): Row {
    if row.Some? then row.value else NEW_ROW
  }

  function AfterRateLimit(row: Option<Row>, trial: bool, cooldown: Time, now: Time): Row {
    var r := OrNew(row);
    if CanMove(r, Observed(trial)) then Tripped(r, cooldown, now) else r
  }

  function AfterCountFailure(row: Option<Row>, trial: bool, now: Time): Row {
    var r := OrNew(row);
    var counted := if CanIncrement(r, r.failures) then Incremented(r, now) else r;
    if r.failures + 1 >= TRIP_THRESHOLD && CanMove(counted, Observed(trial))
    then Tripped(counted, now + COOLDOWN_FLOOR, now) else counted
  }

  function AfterSuccess(row: Option<Row>, trial: bool): Option<Row> {
    if trial && row.Some? && CanMove(row.value, HalfOpen) then Some(NEW_ROW) else row
  }

  function AfterAnswer(row: Option<Row>, trial: bool, answer: Answer, now: Time): Option<Row> {
    match answer
    case Ok => AfterSuccess(row, trial)
    case Unusable => row
    case RateLimited(r, j) => Some(AfterRateLimit(row, trial, CooldownForRetryAfter(r, j, now), now))
    case Failed => Some(AfterCountFailure(row, trial, now))
  }

  /** The row after one request has dealt with the provider. */
  function AfterVisit(row: Option<Row>, now: Time, answer: Answer): Option<Row> {
    match AdmissionOf(row, now)
    case Skip => row
    case Admit(trial) => AfterAnswer(AfterAdmission(row, now), trial, answer, now)
  }
}
