/** What a request does to each provider of its chain, as functions of the provider, its
    initial breaker row and its answers. */
module RouterModel {
  import opened Wrappers
  import opened CircuitBreaker

  datatype KeyState = NoKey | GoodKey | BadKey

  datatype Provider = Provider(name: string, id: nat, key: KeyState, priority: int)

  type Chain = seq<Provider>

  datatype Status = StatusOk | HttpError | Unavailable | Timeout

  datatype Response = Response(status: Status, statusCode: Option<int>, retryAfter: Option<real>, errorType: string)

  /** What the output of an `ok` response looks like to the structured lane. */
  datatype Shape = Valid | SchemaMismatch | InvalidJson

  datatype Reply = Reply(response: Response, shape: Shape)

  datatype AttemptStatus = Unregistered | BreakerSkip | CallFailed

  datatype Attempt = Attempt(provider: string, status: AttemptStatus, errorType: string, called: bool)

  datatype Usage = Usage(providerId: nat, success: bool, errorType: string)

  datatype Audit =
    | ProviderFailed(providerId: nat, errorType: string)
    | AllExhausted(consumed: seq<string>, attempts: seq<Attempt>)

  datatype ErrorRow = ErrorRow(consumed: seq<string>, attempts: seq<Attempt>)

  datatype RouteResult =
    | Answered(provider: string)
    | Exhausted(attempts: seq<Attempt>, consumed: seq<string>)

  datatype Checkpoint = Checkpoint(jobId: nat, step: string, failed: seq<string>)

  /** Everything outside the router: the registry, the clock, and per-provider jitter. */
  datatype World = World(registered: set<string>, now: Time, jitter: string -> real)

  // ---------------------------------------------------------- reading an answer

  function ErrorTypeOf(r: Response): string {
    if r.errorType != "" then r.errorType
    else if r.status.Timeout? then "timeout" else "server_error"
  }

  predicate IsRateLimit(r: Response) {
    ErrorTypeOf(r) == "rate_limited" || r.statusCode == Some(429)
  }

  function AnswerOf(r: Response, jitter: real): Answer {
    if r.status.StatusOk? then Ok
    else if r.status.Unavailable? then Unusable
    else if IsRateLimit(r) then RateLimited(r.retryAfter, jitter)
    else Failed
  }

  function FailureType(r: Response): string {
    if r.status.Unavailable? then "unavailable" else ErrorTypeOf(r)
  }

  // ---------------------------------------------------------------- the two lanes

  /** What calling a provider comes to: the answer the breaker sees, one failed usage row
      per failing call, and whether the last call succeeded. */
  datatype Deal = Deal(answer: Answer, failures: seq<string>)

  /** One deal per chain entry: a provider named twice may answer differently each time. */
  type Deals = nat -> Deal

  /** The plain lane: one call. */
  function RouteDeal(r: Response, jitter: real): Deal {
    if r.status.StatusOk? then Deal(Ok, []) else Deal(AnswerOf(r, jitter), [FailureType(r)])
  }

  const NO_DEAL := Deal(Unusable, [])

  function RouteDeals(chain: Chain, answers: nat -> Response, w: World): Deals {
    (i: nat) => if i < |chain| then RouteDeal(answers(i), w.jitter(chain[i].name)) else NO_DEAL
  }

  predicate ShapeFailure(r: Reply) {
    r.response.status.StatusOk? && !r.shape.Valid?
  }

  function ShapeError(r: Reply): string {
    if r.shape.SchemaMismatch? then "schema_mismatch" else "invalid_json"
  }

  function Max0(n: int): nat {
    if n > 0 then n else 0
  }

  /** The structured lane: calls from the k-th on, with `left` repairs to go. */
  function RepairDeal(replies: nat -> Reply, k: nat, left: nat, jitter: real): Deal
    decreases left
  {
    var r := replies(k);
    if ShapeFailure(r) then
      if left == 0 then Deal(Unusable, [ShapeError(r)])
      else
        var rest := RepairDeal(replies, k + 1, left - 1, jitter);
        Deal(rest.answer, [ShapeError(r)] + rest.failures)
    else RouteDeal(r.response, jitter)
  }

  /** A deal after some failures that came before it. */
  function Prefixed(failed: seq<string>, d: Deal): Deal {
    Deal(d.answer, failed + d.failures)
  }

  lemma RepairOneMore(failed: seq<string>, replies: nat -> Reply, k: nat, left: nat, jitter: real)
    requires ShapeFailure(replies(k))
    ensures var error := [ShapeError(replies(k))];
      Prefixed(failed, RepairDeal(replies, k, left, jitter))
      == if left == 0 then Deal(Unusable, failed + error)
         else Prefixed(failed + error, RepairDeal(replies, k + 1, left - 1, jitter))
  {
    if left > 0 {
      var rest := RepairDeal(replies, k + 1, left - 1, jitter);
      assert failed + ([ShapeError(replies(k))] + rest.failures) == failed + [ShapeError(replies(k))] + rest.failures;
    }
  }

  function CallsMade(replies: nat -> Reply, k: nat, left: nat): nat
    decreases left
  {
    if ShapeFailure(replies(k)) && left > 0 then 1 + CallsMade(replies, k + 1, left - 1) else 1
  }

  /** After `used` repairs, each for one of the failures so far, the rest of the deal and of
      the calls is still to come. */
  ghost predicate Talking(replies: nat -> Reply, repairs: nat, jitter: real, d: Deal, used: nat, failed: seq<string>) {
    && used <= repairs
    && d == Prefixed(failed, RepairDeal(replies, used, repairs - used, jitter))
    && CallsMade(replies, 0, repairs) == used + CallsMade(replies, used, repairs - used)
  }

  lemma TalkStart(replies: nat -> Reply, repairs: nat, jitter: real)
    ensures Talking(replies, repairs, jitter, RepairDeal(replies, 0, repairs, jitter), 0, [])
  {
    var d := RepairDeal(replies, 0, repairs, jitter);
    assert [] + d.failures == d.failures;
  }

  lemma TalkOneMore(replies: nat -> Reply, repairs: nat, jitter: real, d: Deal, used: nat, failed: seq<string>)
    requires Talking(replies, repairs, jitter, d, used, failed) && ShapeFailure(replies(used))
    ensures if used < repairs then Talking(replies, repairs, jitter, d, used + 1, failed + [ShapeError(replies(used))])
            else d == Deal(Unusable, failed + [ShapeError(replies(used))]) && CallsMade(replies, 0, repairs) == used + 1
  {
    RepairOneMore(failed, replies, used, repairs - used, jitter);
  }

  lemma TalkEnd(replies: nat -> Reply, repairs: nat, jitter: real, d: Deal, used: nat, failed: seq<string>)
    requires Talking(replies, repairs, jitter, d, used, failed) && !ShapeFailure(replies(used))
    ensures d == Prefixed(failed, RouteDeal(replies(used).response, jitter))
    ensures CallsMade(replies, 0, repairs) == used + 1
  {
  }

  function StructuredDeal(replies: nat -> Reply, maxRepairs: int, jitter: real): Deal {
    RepairDeal(replies, 0, Max0(maxRepairs), jitter)
  }

  function StructuredDeals(chain: Chain, replies: nat -> nat -> Reply, maxRepairs: int, w: World): Deals {
    (i: nat) => if i < |chain| then StructuredDeal(replies(i), maxRepairs, w.jitter(chain[i].name)) else NO_DEAL
  }

  lemma StructuredDealAt(chain: Chain, replies: nat -> nat -> Reply, maxRepairs: int, w: World, i: nat)
    requires i < |chain|
    ensures StructuredDeals(chain, replies, maxRepairs, w)(i) == StructuredDeal(replies(i), maxRepairs, w.jitter(chain[i].name))
  {
  }

  // ------------------------------------------------------------ one provider

  datatype Gate = NotRegistered | Refused | KeyBroken(trial: bool) | Callable(trial: bool)

  function GateOf(p: Provider, row: Option<Row>, w: World): Gate {
    if p.name !in w.registered then NotRegistered
    else
      match AdmissionOf(row, w.now)
      case Skip => Refused
      case Admit(trial) => if p.key.BadKey? then KeyBroken(trial) else Callable(trial)
  }

  predicate Wins(p: Provider, row: Option<Row>, w: World, d: Deal) {
    GateOf(p, row, w).Callable? && d.answer.Ok?
  }

  function RowAfter(p: Provider, row: Option<Row>, w: World, d: Deal): Option<Row> {
    match GateOf(p, row, w)
    case NotRegistered => row
    case Refused => row
    case KeyBroken(_) => AfterAdmission(row, w.now)
    case Callable(trial) => AfterAnswer(AfterAdmission(row, w.now), trial, d.answer, w.now)
  }

  function FailureTypes(p: Provider, row: Option<Row>, w: World, d: Deal): seq<string> {
    match GateOf(p, row, w)
    case NotRegistered => []
    case Refused => []
    case KeyBroken(_) => ["invalid_key"]
    case Callable(_) => d.failures
  }

  function FailedRows(id: nat, types: seq<string>): seq<Usage> {
    seq(|types|, i requires 0 <= i < |types| => Usage(id, false, types[i]))
  }

  function FailedAudits(id: nat, types: seq<string>): seq<Audit> {
    seq(|types|, i requires 0 <= i < |types| => ProviderFailed(id, types[i]))
  }

  /** Usage rows: one per failure, and one for the success that ends the request. */
  function UsageOf(p: Provider, row: Option<Row>, w: World, d: Deal): seq<Usage> {
    FailedRows(p.id, FailureTypes(p, row, w, d))
    + (if Wins(p, row, w, d) then [Usage(p.id, true, "")] else [])
  }

  function AuditsOf(p: Provider, row: Option<Row>, w: World, d: Deal): seq<Audit> {
    FailedAudits(p.id, FailureTypes(p, row, w, d))
  }

  /** The attempt record of a provider that did not win: its last failure. */
  function AttemptOf(p: Provider, row: Option<Row>, w: World, d: Deal): Attempt {
    match GateOf(p, row, w)
    case NotRegistered => Attempt(p.name, Unregistered, "unregistered", false)
    case Refused => Attempt(p.name, BreakerSkip, "breaker_skip", false)
    case KeyBroken(_) => Attempt(p.name, CallFailed, "invalid_key", true)
    case Callable(_) => Attempt(p.name, CallFailed, if d.failures == [] then "" else d.failures[|d.failures| - 1], true)
  }

  function ConsumedOf(p: Provider, row: Option<Row>, w: World): seq<string> {
    if GateOf(p, row, w).Callable? then [p.name] else []
  }

  // ------------------------------------------------------------- a whole chain

  predicate NoDuplicates(chain: Chain) {
    forall i, j | 0 <= i < j < |chain| :: chain[i].name != chain[j].name
  }

  function RowIn(t: Table, name: string): Option<Row> {
    if name in t then Some(t[name]) else None
  }

  /** A provider's row after the first n chain entries have been dealt with. */
  function RowAt(chain: Chain, t: Table, w: World, deals: Deals, n: nat, name: string): Option<Row>
    requires n <= |chain|
  {
    if n == 0 then RowIn(t, name)
    else
      var before := RowAt(chain, t, w, deals, n - 1, name);
      if chain[n - 1].name == name then RowAfter(chain[n - 1], before, w, deals(n - 1)) else before
  }

  /** The row that chain entry i finds when its turn comes. */
  function RowFound(chain: Chain, t: Table, w: World, deals: Deals, i: nat): Option<Row>
    requires i < |chain|
  {
    RowAt(chain, t, w, deals, i, chain[i].name)
  }

  /** The rows the entries of a chain find, each when its turn comes. */
  type Rows = nat -> Option<Row>

  function Found(chain: Chain, t: Table, w: World, deals: Deals): Rows {
    (i: nat) => if i < |chain| then RowFound(chain, t, w, deals, i) else None
  }

  predicate WinsAt(chain: Chain, found: Rows, w: World, deals: Deals, i: nat)
    requires i < |chain|
  {
    Wins(chain[i], found(i), w, deals(i))
  }

  predicate NoWinnerBefore(chain: Chain, found: Rows, w: World, deals: Deals, n: nat)
    requires n <= |chain|
  {
    forall i | 0 <= i < n :: !WinsAt(chain, found, w, deals, i)
  }

  /** The table after the first n entries. */
  ghost predicate Handled(t: Table, t': Table, chain: Chain, w: World, deals: Deals, n: nat)
    requires n <= |chain|
  {
    forall name :: RowIn(t', name) == RowAt(chain, t, w, deals, n, name)
  }

  function UsageUpTo(chain: Chain, found: Rows, w: World, deals: Deals, n: nat): seq<Usage>
    requires n <= |chain|
  {
    if n == 0 then []
    else UsageUpTo(chain, found, w, deals, n - 1) + UsageOf(chain[n - 1], found(n - 1), w, deals(n - 1))
  }

  function AuditsUpTo(chain: Chain, found: Rows, w: World, deals: Deals, n: nat): seq<Audit>
    requires n <= |chain|
  {
    if n == 0 then []
    else AuditsUpTo(chain, found, w, deals, n - 1) + AuditsOf(chain[n - 1], found(n - 1), w, deals(n - 1))
  }

  function AttemptsUpTo(chain: Chain, found: Rows, w: World, deals: Deals, n: nat): seq<Attempt>
    requires n <= |chain|
  {
    seq(n, i requires 0 <= i < n => AttemptOf(chain[i], found(i), w, deals(i)))
  }

  function ConsumedUpTo(chain: Chain, found: Rows, w: World, deals: Deals, n: nat): seq<string>
    requires n <= |chain|
  {
    if n == 0 then []
    else ConsumedUpTo(chain, found, w, deals, n - 1) + ConsumedOf(chain[n - 1], found(n - 1), w)
  }

  lemma HandleOneMore(t: Table, t': Table, t'': Table, chain: Chain, w: World, deals: Deals, n: nat)
    requires n < |chain| && Handled(t, t', chain, w, deals, n)
    requires RowIn(t'', chain[n].name) == RowAfter(chain[n], RowIn(t', chain[n].name), w, deals(n))
    requires forall name | name != chain[n].name :: RowIn(t'', name) == RowIn(t', name)
    ensures RowIn(t', chain[n].name) == RowFound(chain, t, w, deals, n)
    ensures Handled(t, t'', chain, w, deals, n + 1)
  {
  }

  /** The frame: entries of other names leave a row as it was. */
  lemma {:induction false} RowUntouched(chain: Chain, t: Table, w: World, deals: Deals, n: nat, name: string)
    requires n <= |chain| && forall i | 0 <= i < n :: chain[i].name != name
    ensures RowAt(chain, t, w, deals, n, name) == RowIn(t, name)
  {
    if n > 0 {
      RowUntouched(chain, t, w, deals, n - 1, name);
    }
  }

  /** Without repeated names, every entry finds its initial row. */
  lemma RowFoundInitially(chain: Chain, t: Table, w: World, deals: Deals, i: nat)
    requires NoDuplicates(chain) && i < |chain|
    ensures RowFound(chain, t, w, deals, i) == RowIn(t, chain[i].name)
  {
    RowUntouched(chain, t, w, deals, i, chain[i].name);
  }

  /** The first chain entry whose provider is registered, admitted by the row it finds, has a
      usable key and answers well; the chain's length if there is none. */
  function FirstWinner(chain: Chain, found: Rows, w: World, deals: Deals, from: nat): (r: nat)
    requires from <= |chain|
    ensures from <= r <= |chain|
    ensures forall i | from <= i < r :: !WinsAt(chain, found, w, deals, i)
    ensures r < |chain| ==> WinsAt(chain, found, w, deals, r)
    decreases |chain| - from
  {
    if from == |chain| || WinsAt(chain, found, w, deals, from) then from
    else FirstWinner(chain, found, w, deals, from + 1)
  }

  lemma {:induction false} FirstWinnerAt(chain: Chain, found: Rows, w: World, deals: Deals, from: nat, n: nat)
    requires from <= n <= |chain|
    requires forall i | from <= i < n :: !WinsAt(chain, found, w, deals, i)
    requires n < |chain| ==> WinsAt(chain, found, w, deals, n)
    ensures FirstWinner(chain, found, w, deals, from) == n
    decreases n - from
  {
    if from < n {
      FirstWinnerAt(chain, found, w, deals, from + 1, n);
    }
  }

  /** How many providers are dealt with: up to the winner, or all. */
  function Reached(chain: Chain, found: Rows, w: World, deals: Deals): nat {
    var n := FirstWinner(chain, found, w, deals, 0);
    if n < |chain| then n + 1 else n
  }

  /** The tables the router writes. */
  datatype Books = Books(rows: Table, usage: seq<Usage>, audits: seq<Audit>)

  /** One row is replaced, every other one is as it was. */
  ghost predicate OnlyRow(t: Table, t': Table, name: string, row: Option<Row>) {
    RowIn(t', name) == row && forall n | n != name :: RowIn(t', n) == RowIn(t, n)
  }

  /** Failures recorded, each as a usage row and an audit. */
  ghost predicate Recorded(b: Books, b': Books, p: Provider, types: seq<string>) {
    b'.usage == b.usage + FailedRows(p.id, types) && b'.audits == b.audits + FailedAudits(p.id, types)
  }

  /** What the checks before a call do to the books. */
  ghost predicate Admitted(b: Books, b': Books, p: Provider, w: World) {
    var row := RowIn(b.rows, p.name);
    var gate := GateOf(p, row, w);
    && OnlyRow(b.rows, b'.rows, p.name, if gate.NotRegistered? then row else AfterAdmission(row, w.now))
    && Recorded(b, b', p, if gate.KeyBroken? then ["invalid_key"] else [])
  }

  /** What the calls to an admitted provider do to the books. */
  ghost predicate Conversed(b: Books, b': Books, p: Provider, trial: bool, w: World, d: Deal) {
    && OnlyRow(b.rows, b'.rows, p.name, AfterAnswer(RowIn(b.rows, p.name), trial, d.answer, w.now))
    && b'.usage == b.usage + FailedRows(p.id, d.failures) + (if d.answer.Ok? then [Usage(p.id, true, "")] else [])
    && b'.audits == b.audits + FailedAudits(p.id, d.failures)
  }

  lemma StopAtGate(b: Books, b': Books, p: Provider, w: World, d: Deal)
    requires Admitted(b, b', p, w) && !GateOf(p, RowIn(b.rows, p.name), w).Callable?
    ensures Dealt(b, b', p, w, d)
  {
  }

  lemma AdmitThenConverse(b: Books, mid: Books, b': Books, p: Provider, w: World, trial: bool, d: Deal)
    requires Admitted(b, mid, p, w) && GateOf(p, RowIn(b.rows, p.name), w) == Callable(trial)
    requires Conversed(mid, b', p, trial, w, d)
    ensures Dealt(b, b', p, w, d)
  {
  }

  lemma RecordedThenConversed(b: Books, mid: Books, b': Books, p: Provider, trial: bool, w: World,
                              failed: seq<string>, d: Deal)
    requires mid.rows == b.rows && Recorded(b, mid, p, failed) && Conversed(mid, b', p, trial, w, d)
    ensures Conversed(b, b', p, trial, w, Prefixed(failed, d))
  {
    assert FailedRows(p.id, failed + d.failures) == FailedRows(p.id, failed) + FailedRows(p.id, d.failures);
    assert FailedAudits(p.id, failed + d.failures) == FailedAudits(p.id, failed) + FailedAudits(p.id, d.failures);
  }

  lemma RecordOneMore(b: Books, mid: Books, b': Books, p: Provider, types: seq<string>, one: string)
    requires Recorded(b, mid, p, types) && Recorded(mid, b', p, [one])
    ensures Recorded(b, b', p, types + [one])
  {
    assert FailedRows(p.id, types + [one]) == FailedRows(p.id, types) + FailedRows(p.id, [one]);
    assert FailedAudits(p.id, types + [one]) == FailedAudits(p.id, types) + FailedAudits(p.id, [one]);
  }

  /** Where the calls to one provider stand: the misshapen ones are recorded, the rows are as
      they were, and the rest of the deal is still to come. */
  ghost predicate Conversing(b: Books, b': Books, p: Provider, replies: nat -> Reply, repairs: nat, jitter: real,
                             d: Deal, used: nat, failed: seq<string>)
  {
    b'.rows == b.rows && Recorded(b, b', p, failed) && Talking(replies, repairs, jitter, d, used, failed)
  }

  lemma ConversationStarts(b: Books, p: Provider, replies: nat -> Reply, repairs: nat, jitter: real)
    ensures Conversing(b, b, p, replies, repairs, jitter, RepairDeal(replies, 0, repairs, jitter), 0, [])
  {
    TalkStart(replies, repairs, jitter);
  }

  lemma ConverseOneMore(b: Books, mid: Books, b': Books, p: Provider, trial: bool, w: World, replies: nat -> Reply,
                        repairs: nat, d: Deal, used: nat, failed: seq<string>)
    requires Conversing(b, mid, p, replies, repairs, w.jitter(p.name), d, used, failed) && ShapeFailure(replies(used))
    requires b'.rows == mid.rows && Recorded(mid, b', p, [ShapeError(replies(used))])
    ensures var next := failed + [ShapeError(replies(used))];
      if used < repairs then Conversing(b, b', p, replies, repairs, w.jitter(p.name), d, used + 1, next)
      else d == Deal(Unusable, next) && Conversed(b, b', p, trial, w, d) && CallsMade(replies, 0, repairs) == used + 1
  {
    RecordOneMore(b, mid, b', p, failed, ShapeError(replies(used)));
    TalkOneMore(replies, repairs, w.jitter(p.name), d, used, failed);
  }

  lemma ConversationEnds(b: Books, mid: Books, b': Books, p: Provider, trial: bool, w: World, replies: nat -> Reply,
                         repairs: nat, d: Deal, used: nat, failed: seq<string>)
    requires Conversing(b, mid, p, replies, repairs, w.jitter(p.name), d, used, failed) && !ShapeFailure(replies(used))
    requires Conversed(mid, b', p, trial, w, RouteDeal(replies(used).response, w.jitter(p.name)))
    ensures d == Prefixed(failed, RouteDeal(replies(used).response, w.jitter(p.name)))
    ensures Conversed(b, b', p, trial, w, d) && CallsMade(replies, 0, repairs) == used + 1
  {
    TalkEnd(replies, repairs, w.jitter(p.name), d, used, failed);
    RecordedThenConversed(b, mid, b', p, trial, w, failed, RouteDeal(replies(used).response, w.jitter(p.name)));
  }

  /** What dealing with one provider does to the books. */
  ghost predicate Dealt(b: Books, b': Books, p: Provider, w: World, d: Deal) {
    var row := RowIn(b.rows, p.name);
    && RowIn(b'.rows, p.name) == RowAfter(p, row, w, d)
    && (forall n | n != p.name :: RowIn(b'.rows, n) == RowIn(b.rows, n))
    && b'.usage == b.usage + UsageOf(p, row, w, d)
    && b'.audits == b.audits + AuditsOf(p, row, w, d)
  }

  /** The books after the first n providers. */
  ghost predicate BooksAfter(b: Books, b': Books, chain: Chain, w: World, deals: Deals, n: nat)
    requires n <= |chain|
  {
    && Handled(b.rows, b'.rows, chain, w, deals, n)
    && b'.usage == b.usage + UsageUpTo(chain, Found(chain, b.rows, w, deals), w, deals, n)
    && b'.audits == b.audits + AuditsUpTo(chain, Found(chain, b.rows, w, deals), w, deals, n)
  }

  function ResultOf(chain: Chain, found: Rows, w: World, deals: Deals): RouteResult {
    var first := FirstWinner(chain, found, w, deals, 0);
    if first < |chain| then Answered(chain[first].name)
    else Exhausted(AttemptsUpTo(chain, found, w, deals, |chain|), ConsumedUpTo(chain, found, w, deals, |chain|))
  }

  /** Where the loop over the chain stands after n providers, none of which won. */
  ghost predicate Progress(b: Books, b': Books, chain: Chain, w: World, deals: Deals, n: nat,
                           attempts: seq<Attempt>, consumed: seq<string>)
  {
    && n <= |chain|
    && NoWinnerBefore(chain, Found(chain, b.rows, w, deals), w, deals, n)
    && BooksAfter(b, b', chain, w, deals, n)
    && attempts == AttemptsUpTo(chain, Found(chain, b.rows, w, deals), w, deals, n)
    && consumed == ConsumedUpTo(chain, Found(chain, b.rows, w, deals), w, deals, n)
  }

  /** The loop is over: its result, and the books it leaves. */
  ghost predicate Finished(b: Books, b': Books, chain: Chain, w: World, deals: Deals, r: RouteResult) {
    && r == ResultOf(chain, Found(chain, b.rows, w, deals), w, deals)
    && BooksAfter(b, b', chain, w, deals, Reached(chain, Found(chain, b.rows, w, deals), w, deals))
  }

  lemma ProgressStart(b: Books, chain: Chain, w: World, deals: Deals)
    ensures Progress(b, b, chain, w, deals, 0, [], [])
  {
  }

  lemma DealOneMore(b: Books, b': Books, b'': Books, chain: Chain, w: World, deals: Deals, n: nat)
    requires n < |chain|
    requires BooksAfter(b, b', chain, w, deals, n) && Dealt(b', b'', chain[n], w, deals(n))
    ensures RowIn(b'.rows, chain[n].name) == RowFound(chain, b.rows, w, deals, n)
    ensures BooksAfter(b, b'', chain, w, deals, n + 1)
  {
    HandleOneMore(b.rows, b'.rows, b''.rows, chain, w, deals, n);
  }

  lemma AttemptsStep(chain: Chain, found: Rows, w: World, deals: Deals, n: nat)
    requires n < |chain|
    ensures AttemptsUpTo(chain, found, w, deals, n + 1)
         == AttemptsUpTo(chain, found, w, deals, n) + [AttemptOf(chain[n], found(n), w, deals(n))]
  {
  }

  lemma WinnerFinishes(b: Books, b': Books, chain: Chain, w: World, deals: Deals, n: nat)
    requires n < |chain| && NoWinnerBefore(chain, Found(chain, b.rows, w, deals), w, deals, n)
    requires WinsAt(chain, Found(chain, b.rows, w, deals), w, deals, n) && BooksAfter(b, b', chain, w, deals, n + 1)
    ensures Finished(b, b', chain, w, deals, Answered(chain[n].name))
  {
    FirstWinnerAt(chain, Found(chain, b.rows, w, deals), w, deals, 0, n);
  }

  lemma LoserProgresses(b: Books, b': Books, chain: Chain, found: Rows, w: World, deals: Deals, n: nat,
                        attempts: seq<Attempt>, consumed: seq<string>)
    requires n < |chain| && found == Found(chain, b.rows, w, deals) && NoWinnerBefore(chain, found, w, deals, n)
    requires attempts == AttemptsUpTo(chain, found, w, deals, n) && consumed == ConsumedUpTo(chain, found, w, deals, n)
    requires !WinsAt(chain, found, w, deals, n) && BooksAfter(b, b', chain, w, deals, n + 1)
    ensures Progress(b, b', chain, w, deals, n + 1, attempts + [AttemptOf(chain[n], found(n), w, deals(n))],
                     consumed + ConsumedOf(chain[n], found(n), w))
  {
    AttemptsStep(chain, found, w, deals, n);
    ConsumedStep(chain, found, w, deals, n);
  }

  lemma ConsumedStep(chain: Chain, found: Rows, w: World, deals: Deals, n: nat)
    requires n < |chain|
    ensures ConsumedUpTo(chain, found, w, deals, n + 1)
         == ConsumedUpTo(chain, found, w, deals, n) + ConsumedOf(chain[n], found(n), w)
  {
  }

  lemma ProgressOneMore(b: Books, b': Books, b'': Books, chain: Chain, w: World, deals: Deals, n: nat,
                        attempts: seq<Attempt>, consumed: seq<string>)
    requires n < |chain|
    requires Progress(b, b', chain, w, deals, n, attempts, consumed)
    requires Dealt(b', b'', chain[n], w, deals(n))
    ensures var row := RowIn(b'.rows, chain[n].name);
      if Wins(chain[n], row, w, deals(n))
      then Finished(b, b'', chain, w, deals, Answered(chain[n].name))
      else Progress(b, b'', chain, w, deals, n + 1,
                    attempts + [AttemptOf(chain[n], row, w, deals(n))], consumed + ConsumedOf(chain[n], row, w))
  {
    var found := Found(chain, b.rows, w, deals);
    DealOneMore(b, b', b'', chain, w, deals, n);
    assert found(n) == RowIn(b'.rows, chain[n].name);
    if WinsAt(chain, found, w, deals, n) {
      WinnerFinishes(b, b'', chain, w, deals, n);
    } else {
      LoserProgresses(b, b'', chain, found, w, deals, n, attempts, consumed);
    }
  }

  lemma ProgressDone(b: Books, b': Books, chain: Chain, w: World, deals: Deals,
                     attempts: seq<Attempt>, consumed: seq<string>)
    requires Progress(b, b', chain, w, deals, |chain|, attempts, consumed)
    ensures Finished(b, b', chain, w, deals, Exhausted(attempts, consumed))
    ensures attempts == [] ==> consumed == []
  {
    FirstWinnerAt(chain, Found(chain, b.rows, w, deals), w, deals, 0, |chain|);
  }
}
