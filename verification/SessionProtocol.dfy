/** Refresh-token sessions as a state machine over the session table. Transactions overlap:
    a refresh revokes the presented row under its lock, and only later commits the rotation
    or rolls back; anything may happen in between. A row that a transaction has revoked but
    not committed is one no other transaction can revoke. */
module SessionProtocol {
  import opened Wrappers

  type Time = real

  /** SHA-256, taken as injective. */
  datatype Digest = Sha256(content: string)

  /** One row. `parent` is history: the row that was rotated into this one. */
  datatype Session = Session(user: nat, digest: Digest, expires: Time, revoked: Option<Time>, parent: Option<nat>)

  /** An open refresh transaction: the row it has revoked, when, and for which subject. */
  datatype Rotation = Rotation(row: nat, at: Time, sub: nat)

  datatype State = State(users: set<nat>, sessions: seq<Session>, pending: map<nat, Rotation>, now: Time)

  datatype Step =
    | Register(user: nat, jti: string)
    | Login(user: nat, jti: string)
    | BeginRefresh(tx: nat, row: nat, sub: nat, jti: string, at: Time)
    | CommitRefresh(tx: nat, newJti: string)
    | AbortRefresh(tx: nat)
    | Logout(row: nat, sub: nat, jti: string, at: Time)
    | RemoveUser(user: nat)
    | Tick(to: Time)

  const REFRESH_TTL: Time := 7.0 * 24.0 * 3600.0

  // -------------------------------------------------------------------- the steps

  /** The guard of the revoking UPDATE, for a transaction that started at time `at`. */
  predicate Active(row: Session, sub: nat, jti: string, at: Time) {
    row.user == sub && row.digest == Sha256(jti) && row.revoked == None && row.expires > at
  }

  /** A freshly drawn token id has not been stored before. */
  predicate FreshJti(sessions: seq<Session>, jti: string) {
    forall i :: 0 <= i < |sessions| ==> sessions[i].digest != Sha256(jti)
  }

  predicate Enabled(s: State, step: Step) {
    match step
    case Register(user, jti) => user !in s.users && FreshJti(s.sessions, jti)
    case Login(user, jti) => user in s.users && FreshJti(s.sessions, jti)
    case BeginRefresh(tx, row, sub, jti, at) =>
      tx !in s.pending && at <= s.now && row < |s.sessions| && Active(s.sessions[row], sub, jti, at)
    case CommitRefresh(tx, newJti) =>
      tx in s.pending && s.pending[tx].sub in s.users && FreshJti(s.sessions, newJti)
    case AbortRefresh(tx) => tx in s.pending && s.pending[tx].row < |s.sessions|
    case Logout(row, sub, jti, at) =>
      at <= s.now && row < |s.sessions| && Active(s.sessions[row], sub, jti, at)
    case RemoveUser(user) => user in s.users
    case Tick(to) => s.now <= to
  }

  function Issue(s: State, user: nat, jti: string, parent: Option<nat>): seq<Session> {
    s.sessions + [Session(user, Sha256(jti), s.now + REFRESH_TTL, None, parent)]
  }

  function Marked(sessions: seq<Session>, row: nat, revoked: Option<Time>): seq<Session>
    requires row < |sessions|
  {
    sessions[row := sessions[row].(revoked := revoked)]
  }

  /** A step that is not enabled changes nothing: the UPDATE matches no row and the request
      is refused, or the transaction is still waiting. */
  function Apply(s: State, step: Step): State {
    if !Enabled(s, step) then s else
    match step
    case Register(user, jti) => s.(users := s.users + {user}, sessions := Issue(s, user, jti, None))
    case Login(user, jti) => s.(sessions := Issue(s, user, jti, None))
    case BeginRefresh(tx, row, sub, jti, at) =>
      s.(sessions := Marked(s.sessions, row, Some(at)), pending := s.pending[tx := Rotation(row, at, sub)])
    case CommitRefresh(tx, newJti) =>
      var rotation := s.pending[tx];
      s.(sessions := Issue(s, rotation.sub, newJti, Some(rotation.row)), pending := s.pending - {tx})
    case AbortRefresh(tx) =>
      s.(sessions := Marked(s.sessions, s.pending[tx].row, None), pending := s.pending - {tx})
    case Logout(row, sub, jti, at) => s.(sessions := Marked(s.sessions, row, Some(at)))
    case RemoveUser(user) => s.(users := s.users - {user})
    case Tick(to) => s.(now := to)
  }

  function After(s: State, steps: seq<Step>): State {
    if steps == [] then s else Apply(After(s, steps[..|steps| - 1]), steps[|steps| - 1])
  }

  predicate Initial(s: State) {
    s.users == {} && s.sessions == [] && s.pending == map[]
  }

  // ---------------------------------------------------------------- the invariant

  ghost predicate UniqueDigests(s: State) {
    forall i, j :: 0 <= i < j < |s.sessions| ==> s.sessions[i].digest != s.sessions[j].digest
  }

  /** A successor comes after its parent, belongs to the same user, and its parent is
      revoked for good. */
  ghost predicate ParentOk(s: State, i: nat)
    requires i < |s.sessions| && s.sessions[i].parent.Some?
  {
    var p := s.sessions[i].parent.value;
    && p < i && s.sessions[p].user == s.sessions[i].user && Spent(s, p)
  }

  /** Revoked and committed: no open transaction can still take it back. */
  ghost predicate Spent(s: State, i: nat) {
    && i < |s.sessions| && s.sessions[i].revoked.Some?
    && (forall tx :: tx in s.pending ==> s.pending[tx].row != i)
  }

  ghost predicate Rotated(s: State) {
    forall i :: 0 <= i < |s.sessions| && s.sessions[i].parent.Some? ==> ParentOk(s, i)
  }

  ghost predicate OneSuccessor(s: State) {
    forall i, j :: 0 <= i < j < |s.sessions| && s.sessions[i].parent.Some? ==>
      s.sessions[i].parent != s.sessions[j].parent
  }

  /** An open refresh holds its own row, revoked at the time it started. */
  ghost predicate Locked(s: State) {
    && (forall tx :: tx in s.pending ==>
      && s.pending[tx].row < |s.sessions|
      && s.sessions[s.pending[tx].row].user == s.pending[tx].sub
      && s.sessions[s.pending[tx].row].revoked == Some(s.pending[tx].at))
    && (forall tx, tx' :: tx in s.pending && tx' in s.pending && s.pending[tx].row == s.pending[tx'].row ==>
      tx == tx')
  }

  ghost predicate Inv(s: State) {
    UniqueDigests(s) && Rotated(s) && OneSuccessor(s) && Locked(s)
  }

  /** Changing a revocation mark changes no digest and no parent. */
  lemma MarkKeepsRows(s: State, row: nat, revoked: Option<Time>, pending: map<nat, Rotation>)
    requires UniqueDigests(s) && OneSuccessor(s) && row < |s.sessions|
    ensures var s' := s.(sessions := Marked(s.sessions, row, revoked), pending := pending);
      UniqueDigests(s') && OneSuccessor(s')
  {
    assert forall i :: 0 <= i < |s.sessions| ==>
      Marked(s.sessions, row, revoked)[i].digest == s.sessions[i].digest
      && Marked(s.sessions, row, revoked)[i].parent == s.sessions[i].parent;
  }

  /** Rows that were spent still are. */
  ghost predicate KeepsSpent(s: State, s': State) {
    forall p :: 0 <= p < |s.sessions| && Spent(s, p) ==> Spent(s', p)
  }

  lemma MarkKeepsParents(s: State, row: nat, revoked: Option<Time>, pending: map<nat, Rotation>)
    requires Rotated(s) && row < |s.sessions|
    requires KeepsSpent(s, s.(sessions := Marked(s.sessions, row, revoked), pending := pending))
    ensures Rotated(s.(sessions := Marked(s.sessions, row, revoked), pending := pending))
  {
    var s' := s.(sessions := Marked(s.sessions, row, revoked), pending := pending);
    forall i | 0 <= i < |s'.sessions| && s'.sessions[i].parent.Some? ensures ParentOk(s', i) {
      assert ParentOk(s, i);
    }
  }

  lemma BeginKeepsInv(s: State, step: Step)
    requires Inv(s) && step.BeginRefresh? && Enabled(s, step)
    ensures Inv(Apply(s, step))
  {
    var s' := Apply(s, step);
    assert s' == s.(sessions := Marked(s.sessions, step.row, Some(step.at)), pending := s'.pending);
    assert KeepsSpent(s, s');
    MarkKeepsRows(s, step.row, Some(step.at), s'.pending);
    MarkKeepsParents(s, step.row, Some(step.at), s'.pending);
  }

  lemma AbortKeepsInv(s: State, step: Step)
    requires Inv(s) && step.AbortRefresh? && Enabled(s, step)
    ensures Inv(Apply(s, step))
  {
    var s', row := Apply(s, step), s.pending[step.tx].row;
    assert s' == s.(sessions := Marked(s.sessions, row, None), pending := s'.pending);
    assert KeepsSpent(s, s');
    MarkKeepsRows(s, row, None, s'.pending);
    MarkKeepsParents(s, row, None, s'.pending);
  }

  lemma LogoutKeepsInv(s: State, step: Step)
    requires Inv(s) && step.Logout? && Enabled(s, step)
    ensures Inv(Apply(s, step))
  {
    var s' := Apply(s, step);
    assert s' == s.(sessions := Marked(s.sessions, step.row, Some(step.at)), pending := s.pending);
    assert KeepsSpent(s, s');
    MarkKeepsRows(s, step.row, Some(step.at), s.pending);
    MarkKeepsParents(s, step.row, Some(step.at), s.pending);
  }

  /** A new row, whose parent (if any) is spent in the new state and had no successor. */
  lemma IssueKeepsParents(s: State, s': State, user: nat, jti: string, parent: Option<nat>)
    requires Rotated(s) && KeepsSpent(s, s') && s'.sessions == Issue(s, user, jti, parent)
    requires parent.Some? ==>
      parent.value < |s.sessions| && s.sessions[parent.value].user == user && Spent(s', parent.value)
    ensures Rotated(s')
  {
    forall i | 0 <= i < |s'.sessions| && s'.sessions[i].parent.Some? ensures ParentOk(s', i) {
      if i < |s.sessions| { assert ParentOk(s, i); }
    }
  }

  lemma IssueKeepsSuccessors(s: State, s': State, user: nat, jti: string, parent: Option<nat>)
    requires OneSuccessor(s) && s'.sessions == Issue(s, user, jti, parent)
    requires parent.Some? ==> forall i :: 0 <= i < |s.sessions| ==> s.sessions[i].parent != parent
    ensures OneSuccessor(s')
  {
  }

  lemma OpenRowUnrotated(s: State, tx: nat, i: nat)
    requires Inv(s) && tx in s.pending && i < |s.sessions|
    ensures s.sessions[i].parent != Some(s.pending[tx].row)
  {
    assert s.sessions[i].parent.Some? ==> ParentOk(s, i);
  }

  lemma CommitKeepsInv(s: State, step: Step)
    requires Inv(s) && step.CommitRefresh? && Enabled(s, step)
    ensures Inv(Apply(s, step))
  {
    var s', rotation := Apply(s, step), s.pending[step.tx];
    assert KeepsSpent(s, s') && Spent(s', rotation.row);
    IssueKeepsParents(s, s', rotation.sub, step.newJti, Some(rotation.row));
    forall i | 0 <= i < |s.sessions| ensures s.sessions[i].parent != Some(rotation.row) {
      OpenRowUnrotated(s, step.tx, i);
    }
    IssueKeepsSuccessors(s, s', rotation.sub, step.newJti, Some(rotation.row));
  }

  lemma SignInKeepsInv(s: State, step: Step)
    requires Inv(s) && (step.Register? || step.Login?) && Enabled(s, step)
    ensures Inv(Apply(s, step))
  {
    var s' := Apply(s, step);
    assert KeepsSpent(s, s');
    IssueKeepsParents(s, s', step.user, step.jti, None);
    IssueKeepsSuccessors(s, s', step.user, step.jti, None);
  }

  lemma QuietStepsKeepInv(s: State, step: Step)
    requires Inv(s) && (step.RemoveUser? || step.Tick?)
    ensures Inv(Apply(s, step))
  {
    var s' := Apply(s, step);
    forall i | 0 <= i < |s'.sessions| && s'.sessions[i].parent.Some? ensures ParentOk(s', i) {
      assert ParentOk(s, i);
    }
  }

  lemma StepKeepsInv(s: State, step: Step)
    requires Inv(s)
    ensures Inv(Apply(s, step))
  {
    if Enabled(s, step) {
      match step
      case BeginRefresh(_, _, _, _, _) => BeginKeepsInv(s, step);
      case CommitRefresh(_, _) => CommitKeepsInv(s, step);
      case AbortRefresh(_) => AbortKeepsInv(s, step);
      case Logout(_, _, _, _) => LogoutKeepsInv(s, step);
      case RemoveUser(_) => QuietStepsKeepInv(s, step);
      case Tick(_) => QuietStepsKeepInv(s, step);
      case _ => SignInKeepsInv(s, step);
    }
  }

  lemma {:induction false} RunKeepsInv(s: State, steps: seq<Step>)
    requires Inv(s)
    ensures Inv(After(s, steps))
  {
    if steps != [] {
      RunKeepsInv(s, steps[..|steps| - 1]);
      StepKeepsInv(After(s, steps[..|steps| - 1]), steps[|steps| - 1]);
    }
  }

  lemma ReachableInv(s: State, steps: seq<Step>)
    requires Initial(s)
    ensures Inv(After(s, steps))
  {
    RunKeepsInv(s, steps);
  }

  // --------------------------------------------------------------------- lineages

  /** The login or registration a row descends from. */
  function Root(s: State, i: nat): (r: nat)
    requires i < |s.sessions|
    ensures r <= i
    decreases i
  {
    match s.sessions[i].parent
    case Some(p) => if p < i then Root(s, p) else i
    case None => i
  }

  /** Two rows of one lineage: the earlier one has been rotated, towards the later one. */
  lemma {:induction false} EarlierIsRotated(s: State, i: nat, j: nat)
    requires Inv(s) && i < j < |s.sessions| && Root(s, i) == Root(s, j)
    ensures exists c: nat :: c <= j && s.sessions[c].parent == Some(i)
    decreases j
  {
    if s.sessions[j].parent.Some? {
      var p := s.sessions[j].parent.value;
      assert ParentOk(s, j);
      assert Root(s, j) == Root(s, p);
      if p > i {
        EarlierIsRotated(s, i, p);
      } else if p < i {
        // then p has a successor no later than i, besides j
        EarlierIsRotated(s, p, i);
        assert false;
      }
    }
  }

  /** Each lineage has at most one unrevoked row, and it is the last of its lineage. */
  lemma OneActivePerLineage(s: State, i: nat, j: nat)
    requires Inv(s) && i < |s.sessions| && j < |s.sessions| && Root(s, i) == Root(s, j)
    requires s.sessions[i].revoked == None
    ensures j <= i
    ensures s.sessions[j].revoked == None ==> i == j
  {
    if i < j { UnrevokedIsLast(s, i, j); }
    if j < i && s.sessions[j].revoked == None { UnrevokedIsLast(s, j, i); }
  }

  lemma UnrevokedIsLast(s: State, i: nat, j: nat)
    requires Inv(s) && i < j < |s.sessions| && Root(s, i) == Root(s, j)
    ensures s.sessions[i].revoked != None
  {
    EarlierIsRotated(s, i, j);
    var c: nat :| c <= j && s.sessions[c].parent == Some(i);
    assert ParentOk(s, c);
  }

  /** A lineage never changes hands. */
  lemma {:induction false} LineageIsOneUser(s: State, i: nat)
    requires Inv(s) && i < |s.sessions|
    ensures s.sessions[Root(s, i)].user == s.sessions[i].user
    decreases i
  {
    if s.sessions[i].parent.Some? {
      var p := s.sessions[i].parent.value;
      assert ParentOk(s, i);
      LineageIsOneUser(s, p);
    }
  }

  /** A token names one row. */
  lemma SameDigest(s: State, i: nat, j: nat)
    requires Inv(s) && i < |s.sessions| && j < |s.sessions| && s.sessions[i].digest == s.sessions[j].digest
    ensures i == j
  {
    assert !(i < j) && !(j < i);
  }

  // ------------------------------------------------------------ revoked stays revoked

  lemma StepKeepsSpent(s: State, step: Step, i: nat)
    requires Inv(s) && Spent(s, i)
    ensures Spent(Apply(s, step), i)
    ensures Apply(s, step).sessions[i] == s.sessions[i]
  {
  }

  /** Whatever happens next, a spent row stays exactly as it is. */
  lemma {:induction false} SpentForever(s: State, steps: seq<Step>, i: nat)
    requires Inv(s) && Spent(s, i)
    ensures Spent(After(s, steps), i)
    ensures After(s, steps).sessions[i] == s.sessions[i]
  {
    if steps != [] {
      var front := steps[..|steps| - 1];
      SpentForever(s, front, i);
      RunKeepsInv(s, front);
      StepKeepsSpent(After(s, front), steps[|steps| - 1], i);
    }
  }

  predicate Presents(step: Step, d: Digest) {
    (step.BeginRefresh? || step.Logout?) && Sha256(step.jti) == d
  }

  /** A revoked token is never accepted again, on any row, by anyone. */
  lemma SpentTokenRefused(s: State, steps: seq<Step>, i: nat, step: Step)
    requires Inv(s) && Spent(s, i) && Presents(step, s.sessions[i].digest)
    ensures !Enabled(After(s, steps), step)
  {
    var s' := After(s, steps);
    SpentForever(s, steps, i);
    RunKeepsInv(s, steps);
    if Enabled(s', step) { SameDigest(s', step.row, i); }
  }

  /** The token an open refresh was given. */
  function TokenOf(s: State, tx: nat): Digest
    requires tx in s.pending && s.pending[tx].row < |s.sessions|
  {
    s.sessions[s.pending[tx].row].digest
  }

  ghost predicate Succeeds(s: State, step: Step, d: Digest) {
    && step.CommitRefresh? && Enabled(s, step)
    && s.pending[step.tx].row < |s.sessions| && TokenOf(s, step.tx) == d
  }

  /** Of any competing refreshes of one token at most one succeeds: after a success, no
      later step is a success for the same token. */
  lemma OneRefreshSucceeds(s: State, d: Digest, first: Step, between: seq<Step>, second: Step)
    requires Inv(s) && Succeeds(s, first, d)
    ensures !Succeeds(After(Apply(s, first), between), second, d)
  {
    var row := s.pending[first.tx].row;
    var s' := Apply(s, first);
    StepKeepsInv(s, first);
    assert Spent(s', row);
    SpentForever(s', between, row);
    RunKeepsInv(s', between);
    var s'' := After(s', between);
    if Succeeds(s'', second, d) { SameDigest(s'', s''.pending[second.tx].row, row); }
  }

  /** Two refreshes of one token are never even open at the same time. */
  lemma NoTwoOpen(s: State, tx: nat, tx': nat)
    requires Inv(s) && tx in s.pending && tx' in s.pending && TokenOf(s, tx) == TokenOf(s, tx')
    ensures tx == tx'
  {
    SameDigest(s, s.pending[tx].row, s.pending[tx'].row);
  }

  // ------------------------------------------------------- an unused token stays good

  lemma StepKeepsUnused(s: State, step: Step, i: nat)
    requires Inv(s) && i < |s.sessions| && s.sessions[i].revoked == None
    requires !Presents(step, s.sessions[i].digest)
    ensures i < |Apply(s, step).sessions| && Apply(s, step).sessions[i] == s.sessions[i]
  {
  }

  /** A row whose token nobody presents stays exactly as it is. */
  lemma {:induction false} UnusedForever(s: State, steps: seq<Step>, i: nat)
    requires Inv(s) && i < |s.sessions| && s.sessions[i].revoked == None
    requires forall k :: 0 <= k < |steps| ==> !Presents(steps[k], s.sessions[i].digest)
    ensures i < |After(s, steps).sessions| && After(s, steps).sessions[i] == s.sessions[i]
  {
    if steps != [] {
      var front := steps[..|steps| - 1];
      UnusedForever(s, front, i);
      RunKeepsInv(s, front);
      StepKeepsUnused(After(s, front), steps[|steps| - 1], i);
    }
  }

  // ------------------------------------------------------------- users and the clock

  /** A removed user gets no session: neither by signing in nor by a refresh already begun. */
  lemma RemovedUserGetsNothing(s: State, user: nat, jti: string, tx: nat)
    requires user in s.users
    ensures Enabled(s, RemoveUser(user))
    ensures var s' := Apply(s, RemoveUser(user));
      && user !in s'.users && !Enabled(s', Login(user, jti))
      && (tx in s'.pending && s'.pending[tx].sub == user ==> !Enabled(s', CommitRefresh(tx, jti)))
  {
  }

  predicate TimesOk(s: State) {
    && (forall i :: 0 <= i < |s.sessions| && s.sessions[i].revoked.Some? ==> s.sessions[i].revoked.value <= s.now)
    && (forall i :: 0 <= i < |s.sessions| ==> s.sessions[i].expires <= s.now + 604800.0)
  }

  lemma StepKeepsTimes(s: State, step: Step)
    requires TimesOk(s)
    ensures TimesOk(Apply(s, step)) && s.now <= Apply(s, step).now
    ensures step.Tick? && Enabled(s, step) ==> Apply(s, step).now == step.to
  {
  }

  /** In every run: nothing is revoked ahead of time, and no session outlives seven days from
      now. */
  lemma {:induction false} RunKeepsTimes(s: State, steps: seq<Step>)
    requires TimesOk(s)
    ensures TimesOk(After(s, steps)) && s.now <= After(s, steps).now
  {
    if steps != [] {
      RunKeepsTimes(s, steps[..|steps| - 1]);
      StepKeepsTimes(After(s, steps[..|steps| - 1]), steps[|steps| - 1]);
    }
  }

  // ---------------------------------------------------------------------- rollback

  predicate Ends(step: Step, tx: nat) {
    (step.CommitRefresh? || step.AbortRefresh?) && step.tx == tx
  }

  /** Row and transaction both untouched. */
  ghost predicate StillOpen(s: State, s': State, tx: nat)
    requires tx in s.pending && s.pending[tx].row < |s.sessions|
  {
    && tx in s'.pending && s'.pending[tx] == s.pending[tx]
    && s.pending[tx].row < |s'.sessions|
    && s'.sessions[s.pending[tx].row] == s.sessions[s.pending[tx].row]
  }

  lemma StepKeepsOpen(s: State, tx: nat, step: Step)
    requires Locked(s) && tx in s.pending && !Ends(step, tx)
    ensures StillOpen(s, Apply(s, step), tx)
  {
  }

  lemma {:induction false} OpenStaysOpen(s: State, tx: nat, steps: seq<Step>)
    requires Inv(s) && tx in s.pending
    requires forall k :: 0 <= k < |steps| ==> !Ends(steps[k], tx)
    ensures StillOpen(s, After(s, steps), tx)
  {
    if steps != [] {
      var n := |steps| - 1;
      OpenStaysOpen(s, tx, steps[..n]);
      RunKeepsInv(s, steps[..n]);
      StepKeepsOpen(After(s, steps[..n]), tx, steps[n]);
    }
  }

  /** A refresh that fails after revoking leaves no trace on the row it had revoked, however
      many other steps came between: the token works again. */
  lemma AbortRestores(s: State, start: Step, between: seq<Step>)
    requires Inv(s) && start.BeginRefresh? && Enabled(s, start)
    requires forall k :: 0 <= k < |between| ==> !Ends(between[k], start.tx)
    ensures var s' := After(Apply(s, start), between);
      && Enabled(s', AbortRefresh(start.tx)) && start.row < |s'.sessions|
      && Apply(s', AbortRefresh(start.tx)).sessions == Marked(s'.sessions, start.row, None)
      && Apply(s', AbortRefresh(start.tx)).sessions[start.row] == s.sessions[start.row]
      && start.tx !in Apply(s', AbortRefresh(start.tx)).pending
  {
    StepKeepsInv(s, start);
    OpenStaysOpen(Apply(s, start), start.tx, between);
  }
}
