/** Registering, signing in, refreshing and signing out: each operation is one transaction
    over the tables, and each is a short run of the session protocol. */
module AuthSessions {
  import opened Wrappers
  import opened SessionProtocol

  datatype Account = Account(email: string, passwordHash: string, name: string)

  /** The claims of a refresh token whose signature, type and expiry have been checked; an
      empty `jti` is a missing one. */
  datatype Token = Token(sub: nat, jti: string)

  datatype AuditRow = UserRegistered(user: nat, email: string) | UserLoggedIn(user: nat)

  datatype AuthError =
    | InvalidEmail | NameRequired | WeakPassword | UserExists
    | InvalidCredentials
    | MissingJti | AlreadyUsedOrRevoked | UserGone

  datatype Outcome = Granted(user: nat, refresh: Token) | Refused(error: AuthError)

  /** Text handling and password checks, as arbitrary functions. */
  datatype Security = Security(
    strip: string -> string,
    lower: string -> string,
    strong: string -> bool,
    hash: string -> string,
    verify: (string, string) -> bool)

  function DomainOf(email: string): string {
    if email == "" || email[|email| - 1] == '@' then ""
    else DomainOf(email[..|email| - 1]) + [email[|email| - 1]]
  }

  predicate EmailIsValid(email: string) {
    '@' in email && '.' in DomainOf(email) && email[0] != '@'
  }

  lemma {:induction false} DomainIsLast(email: string, at: nat)
    requires at < |email| && email[at] == '@' && forall i | at < i < |email| :: email[i] != '@'
    ensures DomainOf(email) == email[at + 1..]
    decreases |email|
  {
    var n := |email| - 1;
    if at < n {
      assert forall i | 0 <= i < n :: email[..n][i] == email[i];
      DomainIsLast(email[..n], at);
      assert email[..n][at + 1..] + [email[n]] == email[at + 1..];
    }
  }

  lemma {:induction false} LastAt(email: string) returns (at: nat)
    requires '@' in email
    ensures at < |email| && email[at] == '@' && forall i | at < i < |email| :: email[i] != '@'
  {
    var n := |email| - 1;
    if email[n] == '@' {
      at := n;
    } else {
      at := LastAt(email[..n]);
    }
  }

  /** An address has an `@` that is not its first character, and a dot after its last one. */
  lemma ValidEmails(email: string)
    ensures EmailIsValid(email) <==> exists at: nat ::
      && at < |email| && email[at] == '@' && (forall i | at < i < |email| :: email[i] != '@')
      && '.' in email[at + 1..] && email[0] != '@'
  {
    if '@' in email {
      var last := LastAt(email);
      DomainIsLast(email, last);
      forall at: nat | at < |email| && email[at] == '@' && forall i | at < i < |email| :: email[i] != '@'
        ensures at == last
      {
      }
    }
  }

  class AuthService {
    const security: Security
    var users: map<nat, Account>
    var sessions: seq<Session>
    var audits: seq<AuditRow>
    var now: Time

    ghost function View(): State
      reads this
    {
      State(users.Keys, sessions, map[], now)
    }

    ghost predicate UniqueEmails()
      reads this
    {
      forall u, v :: u in users && v in users && users[u].email == users[v].email ==> u == v
    }

    ghost predicate Valid()
      reads this
    {
      Inv(View()) && UniqueEmails()
    }

    constructor (security: Security, now: Time)
      ensures Valid() && Initial(View()) && this.security == security && this.now == now && audits == []
    {
      this.security := security;
      this.now := now;
      users := map[];
      sessions := [];
      audits := [];
    }

    function Normalized(email: string): string {
      security.lower(security.strip(email))
    }

    method FindByEmail(email: string) returns (found: Option<nat>)
      requires Valid()
      ensures found.Some? ==> found.value in users && users[found.value].email == email
      ensures found == None ==> forall u :: u in users ==> users[u].email != email
    {
      if u :| u in users && users[u].email == email {
        return Some(u);
      }
      return None;
    }

    /** The guarded UPDATE, over every row of the table. */
    method RevokeActiveSession(sub: nat, jti: string) returns (revoked: bool, row: nat)
      requires Valid()
      modifies this`sessions
      ensures revoked <==> exists i :: 0 <= i < |old(sessions)| && Active(old(sessions)[i], sub, jti, now)
      ensures !revoked ==> sessions == old(sessions)
      ensures !revoked ==> forall i :: 0 <= i < |sessions| && sessions[i].user == sub && sessions[i].digest == Sha256(jti) ==>
        sessions[i].revoked.Some? || sessions[i].expires <= now
      ensures revoked ==>
        && row < |old(sessions)| && Active(old(sessions)[row], sub, jti, now)
        && old(sessions)[row].user == sub && old(sessions)[row].digest == Sha256(jti)
        && old(sessions)[row].revoked == None && old(sessions)[row].expires > now
        && sessions == old(sessions)[row := old(sessions)[row].(revoked := Some(now))]
    {
      revoked, row := false, 0;
      for i := 0 to |sessions|
        invariant |sessions| == |old(sessions)|
        invariant revoked <==> exists k :: 0 <= k < i && Active(old(sessions)[k], sub, jti, now)
        invariant !revoked ==> sessions == old(sessions)
        invariant revoked ==>
          && row < i && Active(old(sessions)[row], sub, jti, now)
          && sessions == Marked(old(sessions), row, Some(now))
      {
        if Active(sessions[i], sub, jti, now) {
          sessions := Marked(sessions, i, Some(now));
          revoked, row := true, i;
        }
      }
    }

    method InsertSession(user: nat, jti: string, parent: Option<nat>)
      modifies this`sessions
      ensures sessions == old(sessions) + [Session(user, Sha256(jti), now + 604800.0, None, parent)]
    {
      sessions := sessions + [Session(user, Sha256(jti), now + REFRESH_TTL, None, parent)];
    }

    method Register(email: string, password: string, name: string, userId: nat, jti: string)
      returns (r: Outcome)
      requires Valid() && userId !in users && FreshJti(sessions, jti)
      modifies this`users, this`sessions, this`audits
      ensures Valid()
      ensures r ==
        if !EmailIsValid(security.lower(security.strip(email))) then Refused(InvalidEmail)
        else if name == "" || security.strip(name) == "" then Refused(NameRequired)
        else if !security.strong(password) then Refused(WeakPassword)
        else if exists u :: u in old(users) && old(users)[u].email == security.lower(security.strip(email))
        then Refused(UserExists)
        else Granted(userId, Token(userId, jti))
      ensures r.Refused? ==> View() == old(View()) && users == old(users) && audits == old(audits)
      ensures r.Granted? ==>
        && View() == Apply(old(View()), SessionProtocol.Register(userId, jti))
        && users == old(users)[userId := Account(security.lower(security.strip(email)), security.hash(password), name)]
        && audits == old(audits) + [UserRegistered(userId, security.lower(security.strip(email)))]
    {
      var address := Normalized(email);
      if !EmailIsValid(address) { return Refused(InvalidEmail); }
      if name == "" || security.strip(name) == "" { return Refused(NameRequired); }
      if !security.strong(password) { return Refused(WeakPassword); }
      var existing := FindByEmail(address);
      if existing.Some? { return Refused(UserExists); }
      users := users[userId := Account(address, security.hash(password), name)];
      audits := audits + [UserRegistered(userId, address)];
      InsertSession(userId, jti, None);
      r := Granted(userId, Token(userId, jti));
      assert View() == Apply(old(View()), SessionProtocol.Register(userId, jti));
      StepKeepsInv(old(View()), SessionProtocol.Register(userId, jti));
    }

    method Login(email: string, password: string, jti: string) returns (r: Outcome)
      requires Valid() && FreshJti(sessions, jti)
      modifies this`sessions, this`audits
      ensures Valid()
      ensures r.Refused? ==> View() == old(View()) && audits == old(audits) && r.error == InvalidCredentials
      ensures r.Refused? <==>
        !exists u ::
          && u in users && users[u].email == security.lower(security.strip(email))
          && security.verify(password, users[u].passwordHash)
      ensures r.Granted? ==>
        && r.user in users && users[r.user].email == security.lower(security.strip(email)) && r.refresh == Token(r.user, jti)
        && View() == Apply(old(View()), SessionProtocol.Login(r.user, jti))
        && audits == old(audits) + [UserLoggedIn(r.user)]
    {
      var identity := FindByEmail(Normalized(email));
      if identity == None { return Refused(InvalidCredentials); }
      var user := identity.value;
      assert forall u :: u in users && users[u].email == Normalized(email) ==> u == user;
      if !security.verify(password, users[user].passwordHash) { return Refused(InvalidCredentials); }
      InsertSession(user, jti, None);
      audits := audits + [UserLoggedIn(user)];
      r := Granted(user, Token(user, jti));
      assert View() == Apply(old(View()), SessionProtocol.Login(user, jti));
      StepKeepsInv(old(View()), SessionProtocol.Login(user, jti));
    }

    /** Rotation. The error cases leave every table as it was, also when the revocation had
        already been written. A success is the begin and commit of one protocol refresh. */
    method Refresh(token: Token, newJti: string) returns (r: Outcome)
      requires Valid() && FreshJti(sessions, newJti)
      modifies this`sessions
      ensures Valid()
      ensures r ==
        if token.jti == "" then Refused(MissingJti)
        else if !exists i :: 0 <= i < |old(sessions)| && Active(old(sessions)[i], token.sub, token.jti, now)
        then Refused(AlreadyUsedOrRevoked)
        else if token.sub !in users then Refused(UserGone)
        else Granted(token.sub, Token(token.sub, newJti))
      ensures r.Refused? ==> sessions == old(sessions)
      ensures r.Granted? ==> exists row: nat :: (
        && row < |old(sessions)|
        && Active(old(sessions)[row], token.sub, token.jti, now)
        && View() == Rotate(old(View()), row, token, newJti)
        && Spent(View(), row))
    {
      if token.jti == "" { return Refused(MissingJti); }
      ghost var was := View();
      var before := sessions;
      var revoked, row := RevokeActiveSession(token.sub, token.jti);
      if !revoked { return Refused(AlreadyUsedOrRevoked); }
      if token.sub !in users {
        sessions := before; // the transaction rolls back
        return Refused(UserGone);
      }
      InsertSession(token.sub, newJti, Some(row));
      r := Granted(token.sub, Token(token.sub, newJti));
      RotationKeepsInv(was, row, token, newJti);
      assert View() == Rotate(was, row, token, newJti);
    }

    method Logout(token: Token) returns (error: Option<AuthError>)
      requires Valid()
      modifies this`sessions
      ensures Valid()
      ensures error == if token.jti == "" then Some(MissingJti) else None
      ensures error == None && (exists i :: 0 <= i < |old(sessions)| && Active(old(sessions)[i], token.sub, token.jti, now))
        ==> exists row: nat :: (
          && row < |old(sessions)|
          && Active(old(sessions)[row], token.sub, token.jti, now)
          && View() == Apply(old(View()), SessionProtocol.Logout(row, token.sub, token.jti, now)))
      ensures error.Some? || !(exists i :: 0 <= i < |old(sessions)| && Active(old(sessions)[i], token.sub, token.jti, now))
        ==> sessions == old(sessions)
    {
      if token.jti == "" { return Some(MissingJti); }
      var revoked, row := RevokeActiveSession(token.sub, token.jti);
      if revoked {
        StepKeepsInv(old(View()), SessionProtocol.Logout(row, token.sub, token.jti, now));
      }
      return None;
    }
  }

  /** One refresh without interruption: begin, then commit. */
  ghost function Rotate(s: State, row: nat, token: Token, newJti: string): State {
    Apply(Apply(s, BeginRefresh(0, row, token.sub, token.jti, s.now)), CommitRefresh(0, newJti))
  }

  lemma RotationKeepsInv(s: State, row: nat, token: Token, newJti: string)
    requires Inv(s) && s.pending == map[] && row < |s.sessions| && token.sub in s.users
    requires Active(s.sessions[row], token.sub, token.jti, s.now) && FreshJti(s.sessions, newJti)
    ensures var s' := Rotate(s, row, token, newJti);
      && Inv(s') && Spent(s', row)
      && s' == s.(sessions := Issue(s.(sessions := Marked(s.sessions, row, Some(s.now))), token.sub, newJti, Some(row)))
  {
    var begin := BeginRefresh(0, row, token.sub, token.jti, s.now);
    StepKeepsInv(s, begin);
    StepKeepsInv(Apply(s, begin), CommitRefresh(0, newJti));
  }

  /** What a success costs: the presented token will never be accepted again, whatever else
      the service does. What it buys: whatever happens in between, the new token is accepted
      until it expires, once. */
  lemma RotationReplaces(s: State, row: nat, token: Token, newJti: string, later: seq<Step>, step: Step, tx: nat, at: Time)
    requires Inv(s) && s.pending == map[] && row < |s.sessions| && token.sub in s.users
    requires Active(s.sessions[row], token.sub, token.jti, s.now) && FreshJti(s.sessions, newJti)
    ensures var s', end := Rotate(s, row, token, newJti), After(Rotate(s, row, token, newJti), later);
      && (Presents(step, Sha256(token.jti)) ==> !Enabled(end, step))
      && ((forall k :: 0 <= k < |later| ==> !Presents(later[k], Sha256(newJti))) && tx !in end.pending && at <= end.now ==>
           (Enabled(end, BeginRefresh(tx, |s.sessions|, token.sub, newJti, at)) <==> at < s.now + REFRESH_TTL))
  {
    var s' := Rotate(s, row, token, newJti);
    RotationKeepsInv(s, row, token, newJti);
    if Presents(step, Sha256(token.jti)) {
      SpentTokenRefused(s', later, row, step);
    }
    if forall k :: 0 <= k < |later| ==> !Presents(later[k], Sha256(newJti)) {
      UnusedForever(s', later, |s.sessions|);
    }
  }
}
