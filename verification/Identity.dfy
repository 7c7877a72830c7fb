/**
 Users, sessions and SSE tickets as the HTTP interface drives them.

 `now` and `later` are a call's clock readings, in microseconds; `recorded` says whether the audit
 row it writes is committed, or the call fails or stops there. Password hashing is a function the model does
 not look into; ids, tokens and tickets are drawn by the caller of `Serve`, and so is the id
 of the default tenant, in case the call has to create it.
 */
module Identity {
  import opened Text
  import opened Records
  import RateLimit

  datatype Role = Admin | Operator

  datatype User = User(
    id: string, tenantId: string, username: string, displayName: string, role: Role,
    passwordHash: string, passwordSalt: string)

  datatype Session = Session(id: string, tenantId: string, userId: string, expiresAt: int, revokedAt: Option<int>)

  datatype Principal = Principal(tenantId: string, userId: string, role: Role, sessionId: string)

  /** A ticket's session token and the instant after which it is refused. */
  datatype Ticket = Ticket(token: string, deadline: int)

  datatype Config = Config(hash: (string, string) -> string, sessionTtl: int)

  const TICKET_LIFETIME := 30_000_000

  datatype AuthEventBody =
    | UserCreationBlocked(username: string)
    | LoginBlocked(username: string)
    | LoginFailed(username: string)
    | LoginSucceeded(sessionId: string)

  /** The audit rows of authentication. */
  datatype AuthEvent = AuthEvent(tenantId: string, actor: Option<string>, body: AuthEventBody)

  datatype State = State(
    tenant: Option<string>, users: seq<User>, sessions: map<string, Session>, tickets: map<string, Ticket>,
    trail: seq<AuthEvent>)

  const FRESH_INSTALL := State(None, [], map[], map[], [])

  datatype Call =
    | Bootstrap(tenantId: string)
    | CreateUser(header: Option<string>, username: string, password: string, displayName: string, role: Role,
                 withinLimit: bool, now: int, userId: string, salt: string, tenantId: string, recorded: bool)
    /** The session ends a time to live after `now`, and is described at `later`. */
    | Login(username: string, password: string, withinLimit: bool, now: int, later: int, sessionId: string,
            token: string, tenantId: string, recorded: bool)
    | Logout(token: string, now: int)
    /** The session is checked at `now`, and the ticket runs from `later`. */
    | IssueTicket(token: string, now: int, later: int, ticket: string)
    /** The ticket's deadline is checked at `now` and its session at `later`. */
    | OpenStream(ticket: string, now: int, later: int)

  datatype Reply =
    | Done
    | LoggedIn(token: string)
    | Issued(ticket: string)
    | StreamOpened(tenantId: string)
    | TooManyRequests
    | Refused(error: Error)

  // ---------------------------------------------------------------- lookups

  function FindUser(users: seq<User>, matches: User -> bool): (r: Option<User>)
    ensures r.Some? ==> r.value in users && matches(r.value)
    ensures r.None? ==> forall u <- users :: !matches(u)
  {
    if users == [] then None
    else if matches(users[0]) then Some(users[0])
    else FindUser(users[1..], matches)
  }

  function Named(username: string): User -> bool { (u: User) => u.username == username }

  function WithId(id: string): User -> bool { (u: User) => u.id == id }

  /** `get_local_identity_by_username`. */
  function FindByName(users: seq<User>, username: string): (r: Option<User>)
    ensures r.Some? ==> r.value in users && r.value.username == username
    ensures r.None? ==> forall u <- users :: u.username != username
  {
    var r := FindUser(users, Named(username));
    assert r.None? ==> forall u <- users :: !Named(username)(u);
    r
  }

  /** `get_user_by_id`. */
  function FindById(users: seq<User>, id: string): Option<User> {
    FindUser(users, WithId(id))
  }

  /** `require_principal`. */
  function RequirePrincipal(s: State, token: string, now: int): Result<Principal> {
    if token !in s.sessions then Failure(UnauthorizedError)
    else
      var session := s.sessions[token];
      if session.revokedAt.Some? || session.expiresAt <= now then Failure(UnauthorizedError)
      else
        match FindById(s.users, session.userId)
        case None => Failure(UnauthorizedError)
        case Some(user) => Success(Principal(user.tenantId, user.id, user.role, session.id))
  }

  /** `require_admin_or_bootstrap`: no principal is needed while there are no users. */
  function RequireAdminOrBootstrap(s: State, header: Option<string>, now: int): Result<Option<Principal>> {
    if s.users == [] then Success(None)
    else if header.None? || header.value == "" then Failure(UnauthorizedError)
    else
      match RequirePrincipal(s, header.value, now)
      case Failure(e) => Failure(e)
      case Success(p) => if p.role != Admin then Failure(UnauthorizedError) else Success(Some(p))
  }

  // ---------------------------------------------------------------- calls

  function CreateLocalUser(c: Config, s: State, call: Call): (State, Reply)
    requires call.CreateUser?
  {
    if s.tenant.None? then (s, Refused(ConflictError))
    else if FindByName(s.users, call.username).Some? then (s, Refused(ConflictError))
    else
      var user := User(call.userId, s.tenant.value, call.username, call.displayName, call.role,
                       c.hash(call.password, call.salt), call.salt);
      (s.(users := s.users + [user]), Done)
  }

  /** The user whose credentials a login presents. */
  function Authenticate(c: Config, users: seq<User>, username: string, password: string): Option<User> {
    match FindByName(users, username)
    case None => None
    case Some(user) => if c.hash(password, user.passwordSalt) == user.passwordHash then Some(user) else None
  }

  /** `ensure_default_tenant`. */
  function EnsureTenant(s: State, tenantId: string): (after: State)
    ensures after == s.(tenant := after.tenant) && after.tenant.Some?
  {
    if s.tenant.Some? then s else s.(tenant := Some(tenantId))
  }

  /** The call's last transaction writes its audit row. */
  function Audited(
    s: State, recorded: bool, tenantId: string, actor: Option<string>, body: AuthEventBody, reply: Reply)
    : (State, Reply)
  {
    if recorded then (s.(trail := s.trail + [AuthEvent(tenantId, actor, body)]), reply)
    else (s, Refused(StorageError))
  }

  function ServeLogin(c: Config, s: State, call: Call): (State, Reply)
    requires call.Login? && s.tenant.Some?
  {
    var Login(username, password, withinLimit, now, later, sessionId, token, _, recorded) := call;
    if !withinLimit then Audited(s, recorded, s.tenant.value, None, LoginBlocked(username), TooManyRequests)
    else
      match Authenticate(c, s.users, username, password)
      case None =>
        Audited(s, recorded, s.tenant.value, None, LoginFailed(username), Refused(UnauthorizedError))
      case Some(user) =>
        var session := Session(sessionId, user.tenantId, user.id, now + c.sessionTtl, None);
        var after := s.(sessions := s.sessions[token := session]);
        match RequirePrincipal(after, token, later)
        case Failure(e) => (after, Refused(e))
        case Success(p) =>
          Audited(after, recorded, p.tenantId, Some(p.userId), LoginSucceeded(sessionId), LoggedIn(token))
  }

  function Serve(c: Config, s: State, call: Call): (State, Reply) {
    match call
    case Bootstrap(tenantId) => (EnsureTenant(s, tenantId), Done)
    case CreateUser(header, username, _, _, _, withinLimit, now, _, _, tenantId, recorded) =>
      (match RequireAdminOrBootstrap(s, header, now)
       case Failure(e) => (s, Refused(e))
       case Success(p) =>
         if withinLimit then CreateLocalUser(c, s, call)
         else
           var ensured := EnsureTenant(s, tenantId);
           var actor := if p.Some? then Some(p.value.userId) else None;
           Audited(ensured, recorded, ensured.tenant.value, actor, UserCreationBlocked(username), TooManyRequests))
    case Login(_, _, _, _, _, _, _, tenantId, _) => ServeLogin(c, EnsureTenant(s, tenantId), call)
    case Logout(token, now) =>
      (match RequirePrincipal(s, token, now)
       case Failure(e) => (s, Refused(e))
       case Success(_) => (s.(sessions := s.sessions[token := s.sessions[token].(revokedAt := Some(now))]), Done))
    case IssueTicket(token, now, later, ticket) =>
      (match RequirePrincipal(s, token, now)
       case Failure(e) => (s, Refused(e))
       case Success(_) =>
         (s.(tickets := s.tickets[ticket := Ticket(token, later + TICKET_LIFETIME)]), Issued(ticket)))
    case OpenStream(ticket, now, later) =>
      if ticket !in s.tickets then (s, Refused(UnauthorizedError))
      else
        var data := s.tickets[ticket];
        var popped := s.(tickets := s.tickets - {ticket});
        if now > data.deadline then (popped, Refused(UnauthorizedError))
        else
          match RequirePrincipal(s, data.token, later)
          case Failure(e) => (popped, Refused(e))
          case Success(p) => (popped, StreamOpened(p.tenantId))
  }

  // ---------------------------------------------------------------- the server object

  const AUTH_LIMIT := 5
  const AUTH_WINDOW := 60
  const CREATION_KEY := "global_creation"

  class Server {
    const config: Config
    const authLimiter: RateLimit.SlidingWindowRateLimiter
    const createUserLimiter: RateLimit.SlidingWindowRateLimiter
    var tenant: Option<string>
    var users: seq<User>
    var sessions: map<string, Session>
    var tickets: map<string, Ticket>
    var trail: seq<AuthEvent>

    ghost function Now(): State
      reads this
    {
      State(tenant, users, sessions, tickets, trail)
    }

    ghost predicate Valid() {
      && authLimiter != createUserLimiter
      && authLimiter.limit == createUserLimiter.limit == AUTH_LIMIT
      && authLimiter.windowSeconds == createUserLimiter.windowSeconds == AUTH_WINDOW
    }

    constructor (config: Config)
      ensures Valid() && this.config == config && Now() == FRESH_INSTALL
      ensures fresh(authLimiter) && fresh(createUserLimiter)
      ensures authLimiter.limit == createUserLimiter.limit == 5
      ensures authLimiter.windowSeconds == createUserLimiter.windowSeconds == 60
      ensures authLimiter.buckets == createUserLimiter.buckets == map[]
    {
      this.config := config;
      authLimiter := new RateLimit.SlidingWindowRateLimiter(AUTH_LIMIT, AUTH_WINDOW);
      createUserLimiter := new RateLimit.SlidingWindowRateLimiter(AUTH_LIMIT, AUTH_WINDOW);
      tenant, users, sessions, tickets, trail := None, [], map[], map[], [];
    }

    method PrincipalOf(token: string, now: int) returns (r: Result<Principal>)
      ensures r == RequirePrincipal(Now(), token, now)
    {
      r := RequirePrincipal(State(tenant, users, sessions, tickets, trail), token, now);
    }

    /** Called when the application starts, and by the routes that record an event without a principal. */
    method EnsureDefaultTenant(tenantId: string) returns (id: string)
      modifies this`tenant
      ensures Now() == EnsureTenant(old(Now()), tenantId)
      ensures tenant == Some(id) && id == if old(tenant).Some? then old(tenant).value else tenantId
    {
      if tenant.None? {
        tenant := Some(tenantId);
      }
      id := tenant.value;
    }

    /** `tick` is the monotonic clock the limiters read. */
    method CreateLocalUserRoute(
      header: Option<string>, username: string, password: string, displayName: string, role: Role,
      tick: real, now: int, userId: string, salt: string, tenantId: string, recorded: bool)
      returns (reply: Reply)
      requires Valid()
      modifies this`users, this`tenant, this`trail, createUserLimiter
      ensures var found := old(createUserLimiter.buckets);
        var allowed := RateLimit.Verdict(found, 5, 60, "global_creation", tick);
        && (Now(), reply) == Serve(config, old(Now()),
             CreateUser(header, username, password, displayName, role, allowed, now, userId, salt, tenantId, recorded))
        && createUserLimiter.buckets ==
             if RequireAdminOrBootstrap(old(Now()), header, now).Failure? then found
             else RateLimit.Checked(found, 5, 60, "global_creation", tick)
    {
      hide RateLimit.Verdict, RateLimit.Checked;
      var actor: Option<string> := None;
      if users != [] {
        if header.None? || header.value == "" {
          return Refused(UnauthorizedError);
        }
        var principal := PrincipalOf(header.value, now);
        if principal.Failure? {
          return Refused(principal.error);
        }
        if principal.value.role != Admin {
          return Refused(UnauthorizedError);
        }
        actor := Some(principal.value.userId);
      }
      var withinLimit := createUserLimiter.IsAllowed(CREATION_KEY, tick);
      if !withinLimit {
        var systemTenant := EnsureDefaultTenant(tenantId);
        reply := Audit(recorded, systemTenant, actor, UserCreationBlocked(username), TooManyRequests);
        return;
      }
      if tenant.None? {
        return Refused(ConflictError);
      }
      var existing := FindByName(users, username);
      if existing.Some? {
        return Refused(ConflictError);
      }
      users := users + [User(userId, tenant.value, username, displayName, role, config.hash(password, salt), salt)];
      reply := Done;
    }

    method LoginRoute(
      username: string, password: string, tick: real, now: int, later: int, sessionId: string, token: string,
      tenantId: string, recorded: bool)
      returns (reply: Reply)
      requires Valid()
      modifies this`sessions, this`tenant, this`trail, authLimiter
      ensures var found := old(authLimiter.buckets);
        var allowed := RateLimit.Verdict(found, 5, 60, username, tick);
        && (Now(), reply) == Serve(config, old(Now()),
             Login(username, password, allowed, now, later, sessionId, token, tenantId, recorded))
        && authLimiter.buckets == RateLimit.Checked(found, 5, 60, username, tick)
    {
      hide RateLimit.Verdict, RateLimit.Checked;
      var systemTenant := EnsureDefaultTenant(tenantId);
      var withinLimit := authLimiter.IsAllowed(username, tick);
      if !withinLimit {
        reply := Audit(recorded, systemTenant, None, LoginBlocked(username), TooManyRequests);
        return;
      }
      var created := CreateSession(username, password, now, sessionId, token);
      if created.Failure? {
        reply := Audit(recorded, systemTenant, None, LoginFailed(username), Refused(created.error));
        return;
      }
      var described := PrincipalOf(token, later);
      if described.Failure? {
        return Refused(described.error);
      }
      reply := Audit(recorded, described.value.tenantId, Some(described.value.userId), LoginSucceeded(sessionId),
                     LoggedIn(token));
    }

    method Audit(recorded: bool, tenantId: string, actor: Option<string>, body: AuthEventBody, onSuccess: Reply)
      returns (reply: Reply)
      modifies this`trail
      ensures (Now(), reply) == Audited(old(Now()), recorded, tenantId, actor, body, onSuccess)
    {
      if !recorded {
        return Refused(StorageError);
      }
      trail := trail + [AuthEvent(tenantId, actor, body)];
      reply := onSuccess;
    }

    method CreateSession(username: string, password: string, now: int, sessionId: string, token: string)
      returns (r: Result<Session>)
      modifies this`sessions
      ensures match Authenticate(config, users, username, password)
        case None => r == Failure(UnauthorizedError) && sessions == old(sessions)
        case Some(user) =>
          && r == Success(Session(sessionId, user.tenantId, user.id, now + config.sessionTtl, None))
          && sessions == old(sessions)[token := r.value]
    {
      var identity := FindByName(users, username);
      if identity.None? {
        return Failure(UnauthorizedError);
      }
      var user := identity.value;
      var expectedHash := config.hash(password, user.passwordSalt);
      if expectedHash != user.passwordHash {
        return Failure(UnauthorizedError);
      }
      var session := Session(sessionId, user.tenantId, user.id, now + config.sessionTtl, None);
      sessions := sessions[token := session];
      r := Success(session);
    }

    method LogoutRoute(token: string, now: int) returns (reply: Reply)
      modifies this`sessions
      ensures (Now(), reply) == Serve(config, old(Now()), Logout(token, now))
    {
      var principal := PrincipalOf(token, now);
      if principal.Failure? {
        return Refused(principal.error);
      }
      sessions := sessions[token := sessions[token].(revokedAt := Some(now))];
      reply := Done;
    }

    method CreateSseTicket(token: string, now: int, later: int, ticket: string) returns (reply: Reply)
      modifies this`tickets
      ensures (Now(), reply) == Serve(config, old(Now()), IssueTicket(token, now, later, ticket))
    {
      var principal := PrincipalOf(token, now);
      if principal.Failure? {
        return Refused(principal.error);
      }
      tickets := tickets[ticket := Ticket(token, later + TICKET_LIFETIME)];
      reply := Issued(ticket);
    }

    method EventsStream(ticket: string, now: int, later: int) returns (reply: Reply)
      modifies this`tickets
      ensures (Now(), reply) == Serve(config, old(Now()), OpenStream(ticket, now, later))
    {
      if ticket !in tickets {
        return Refused(UnauthorizedError);
      }
      var data := tickets[ticket];
      tickets := tickets - {ticket};
      if now > data.deadline {
        return Refused(UnauthorizedError);
      }
      var principal := PrincipalOf(data.token, later);
      reply := if principal.Failure? then Refused(principal.error) else StreamOpened(principal.value.tenantId);
    }
  }

  // ---------------------------------------------------------------- histories

  function After(c: Config, calls: seq<Call>): State {
    if calls == [] then FRESH_INSTALL
    else Serve(c, After(c, calls[..|calls| - 1]), calls[|calls| - 1]).0
  }

  /** What the call at position `i` was answered. */
  function ReplyAt(c: Config, calls: seq<Call>, i: nat): Reply
    requires i < |calls|
  {
    Serve(c, After(c, calls[..i]), calls[i]).1
  }

  /** A call's last clock reading. */
  function EndOf(call: Call): int
    requires !call.Bootstrap?
  {
    if call.Login? || call.IssueTicket? || call.OpenStream? then call.later else call.now
  }

  predicate TimedBefore(calls: seq<Call>, now: int) {
    forall i | 0 <= i < |calls| && !calls[i].Bootstrap? :: EndOf(calls[i]) <= now
  }

  predicate ClockNonDecreasing(calls: seq<Call>) {
    forall i | 0 <= i < |calls| && !calls[i].Bootstrap? ::
      TimedBefore(calls[..i], calls[i].now) && calls[i].now <= EndOf(calls[i])
  }

  /** No login draws a token, and no issue a ticket, that was drawn before. */
  predicate FreshDraws(calls: seq<Call>) {
    forall i, j | 0 <= i < j < |calls| ::
      && (calls[i].Login? && calls[j].Login? ==> calls[i].token != calls[j].token)
      && (calls[i].IssueTicket? && calls[j].IssueTicket? ==> calls[i].ticket != calls[j].ticket)
  }

  /** Every session belongs to a stored user; users are never removed. */
  predicate SessionsHaveUsers(s: State) {
    forall token <- s.sessions :: FindById(s.users, s.sessions[token].userId).Some?
  }

  lemma {:induction false} FindUserAppend(users: seq<User>, u: User, matches: User -> bool)
    ensures FindUser(users + [u], matches) ==
            if FindUser(users, matches).Some? then FindUser(users, matches)
            else if matches(u) then Some(u) else None
  {
    if users != [] {
      FindUserAppend(users[1..], u, matches);
      assert (users + [u])[1..] == users[1..] + [u];
    } else {
      assert users + [u] == [u] && [u][1..] == [];
    }
  }

  lemma NewUserKeepsSessionUsers(s: State, u: User)
    requires SessionsHaveUsers(s)
    ensures SessionsHaveUsers(s.(users := s.users + [u]))
  {
    forall token <- s.sessions ensures FindById(s.users + [u], s.sessions[token].userId).Some? {
      FindUserAppend(s.users, u, WithId(s.sessions[token].userId));
    }
  }

  lemma AuthenticatedIsStored(c: Config, s: State, username: string, password: string)
    ensures Authenticate(c, s.users, username, password).Some? ==>
              FindById(s.users, Authenticate(c, s.users, username, password).value.id).Some?
  {
  }

  /** A login adds a session exactly when its credentials are right and the limiter lets it through. */
  lemma LoginAddsSession(c: Config, s: State, call: Call)
    requires call.Login? && s.tenant.Some?
    ensures var after := ServeLogin(c, s, call).0;
            var user := Authenticate(c, s.users, call.username, call.password);
            && after.users == s.users && after.tickets == s.tickets
            && after.sessions ==
                 if !call.withinLimit || user.None? then s.sessions
                 else s.sessions[call.token :=
                        Session(call.sessionId, user.value.tenantId, user.value.id, call.now + c.sessionTtl, None)]
  {
    hide RequirePrincipal, Authenticate;
  }

  lemma LoginKeepsSessionUsers(c: Config, s: State, call: Call)
    requires call.Login? && s.tenant.Some? && SessionsHaveUsers(s)
    ensures SessionsHaveUsers(ServeLogin(c, s, call).0)
  {
    LoginAddsSession(c, s, call);
    AuthenticatedIsStored(c, s, call.username, call.password);
    hide ServeLogin, Authenticate, FindById;
  }

  lemma ServeKeepsSessionUsers(c: Config, s: State, call: Call)
    requires SessionsHaveUsers(s)
    ensures SessionsHaveUsers(Serve(c, s, call).0)
  {
    hide FindById, FindByName, RequireAdminOrBootstrap, ServeLogin;
    var after := Serve(c, s, call).0;
    if call.Login? {
      LoginKeepsSessionUsers(c, EnsureTenant(s, call.tenantId), call);
    } else if after.users != s.users {
      NewUserKeepsSessionUsers(s, after.users[|s.users|]);
      hide SessionsHaveUsers;
    }
  }

  lemma {:induction false} ReachableSessionUsers(c: Config, calls: seq<Call>)
    ensures SessionsHaveUsers(After(c, calls))
  {
    if calls != [] {
      ReachableSessionUsers(c, calls[..|calls| - 1]);
      ServeKeepsSessionUsers(c, After(c, calls[..|calls| - 1]), calls[|calls| - 1]);
    }
  }

  // ---------------------------------------------------------------- session lifetime

  /** The life of a session token as the calls tell it: when it ends, and whether a logout was asked for. */
  datatype Life = NeverIssued | Live(end: int) | LoggedOut(end: int)

  function NextLife(c: Config, s: State, life: Life, call: Call, token: string): Life {
    match call
    case Login(username, password, withinLimit, now, _, _, t, _, _) =>
      if t == token && withinLimit && Authenticate(c, s.users, username, password).Some? then Live(now + c.sessionTtl)
      else life
    case Logout(t, _) => if t == token && life.Live? then LoggedOut(life.end) else life
    case _ => life
  }

  function LifeOf(c: Config, calls: seq<Call>, token: string): Life {
    if calls == [] then NeverIssued
    else
      var front := calls[..|calls| - 1];
      NextLife(c, After(c, front), LifeOf(c, front, token), calls[|calls| - 1], token)
  }

  predicate Accepted(c: Config, calls: seq<Call>, token: string, now: int) {
    RequirePrincipal(After(c, calls), token, now).Success?
  }

  /** The stored row against the told life. A logout that came too late left the row unrevoked. */
  predicate RowTells(s: State, token: string, life: Life, now: int) {
    match life
    case NeverIssued => token !in s.sessions
    case Live(end) => token in s.sessions && s.sessions[token].revokedAt.None? && s.sessions[token].expiresAt == end
    case LoggedOut(end) =>
      token in s.sessions && s.sessions[token].expiresAt == end && (s.sessions[token].revokedAt.Some? || end <= now)
  }

  lemma ClockFront(calls: seq<Call>, now: int)
    requires calls != [] && ClockNonDecreasing(calls) && TimedBefore(calls, now)
    ensures var front, last := calls[..|calls| - 1], calls[|calls| - 1];
            && ClockNonDecreasing(front)
            && TimedBefore(front, now)
            && (!last.Bootstrap? ==> TimedBefore(front, last.now) && last.now <= EndOf(last) <= now)
  {
    var front := calls[..|calls| - 1];
    forall i | 0 <= i < |front| && !front[i].Bootstrap? ensures TimedBefore(front[..i], front[i].now) {
      assert front[..i] == calls[..i];
    }
  }

  lemma ServeTellsLife(c: Config, s: State, life: Life, call: Call, token: string, now: int)
    requires SessionsHaveUsers(s) && RowTells(s, token, life, now) && (!call.Bootstrap? ==> call.now == now)
    ensures RowTells(Serve(c, s, call).0, token, NextLife(c, s, life, call, token), now)
  {
    hide RequireAdminOrBootstrap, Authenticate, FindByName, FindById;
    if call.Login? {
      LoginAddsSession(c, EnsureTenant(s, call.tenantId), call);
    }
    hide ServeLogin, EnsureTenant;
  }

  lemma {:induction false} RowTellsLife(c: Config, calls: seq<Call>, token: string, now: int)
    requires ClockNonDecreasing(calls) && TimedBefore(calls, now) && FreshDraws(calls)
    ensures RowTells(After(c, calls), token, LifeOf(c, calls, token), now)
  {
    if calls != [] {
      ClockFront(calls, now);
      assert FreshDraws(calls[..|calls| - 1]);
      hide ClockNonDecreasing, TimedBefore, FreshDraws, Serve, NextLife;
      var front, last := calls[..|calls| - 1], calls[|calls| - 1];
      var at := if last.Bootstrap? then now else last.now;
      ReachableSessionUsers(c, front);
      RowTellsLife(c, front, token, at);
      ServeTellsLife(c, After(c, front), LifeOf(c, front, token), last, token, at);
    }
  }

  /**
   A token is accepted at `now` exactly when it was issued, no logout was asked for since, and
   its time to live has not run out.
   */
  lemma AcceptedIffLive(c: Config, calls: seq<Call>, token: string, now: int)
    requires ClockNonDecreasing(calls) && TimedBefore(calls, now) && FreshDraws(calls)
    ensures Accepted(c, calls, token, now) <==>
            LifeOf(c, calls, token).Live? && now < LifeOf(c, calls, token).end
  {
    RowTellsLife(c, calls, token, now);
    ReachableSessionUsers(c, calls);
  }

  /** After its issue, a token keeps its end and is never live again once logged out. */
  lemma {:induction false} LifeOnlyEnds(c: Config, calls: seq<Call>, n: nat, token: string)
    requires n <= |calls| && FreshDraws(calls) && LifeOf(c, calls[..n], token) != NeverIssued
    ensures var early, late := LifeOf(c, calls[..n], token), LifeOf(c, calls, token);
            late != NeverIssued && late.end == early.end && (early.LoggedOut? ==> late.LoggedOut?)
  {
    if n < |calls| {
      var front, last := calls[..|calls| - 1], calls[|calls| - 1];
      assert front[..n] == calls[..n];
      LifeOnlyEnds(c, front, n, token);
      if last.Login? && last.token == token {
        IssuedByLogin(c, front, token);
      }
    } else {
      assert calls[..n] == calls;
    }
  }

  lemma {:induction false} IssuedByLogin(c: Config, calls: seq<Call>, token: string)
    ensures LifeOf(c, calls, token) != NeverIssued ==>
            exists i :: 0 <= i < |calls| && calls[i].Login? && calls[i].token == token
  {
    if calls != [] {
      var front := calls[..|calls| - 1];
      IssuedByLogin(c, front, token);
      if i :| 0 <= i < |front| && front[i].Login? && front[i].token == token {
        assert calls[i].Login? && calls[i].token == token;
      }
    }
  }

  /** A token that was issued and is refused once is refused ever after. */
  lemma RejectionIsPermanent(c: Config, calls: seq<Call>, n: nat, token: string, early: int, now: int)
    requires n <= |calls| && FreshDraws(calls) && ClockNonDecreasing(calls)
    requires TimedBefore(calls[..n], early) && TimedBefore(calls, now) && early <= now
    requires LifeOf(c, calls[..n], token) != NeverIssued && !Accepted(c, calls[..n], token, early)
    ensures !Accepted(c, calls, token, now)
  {
    forall i | 0 <= i < n && !calls[..n][i].Bootstrap?
      ensures TimedBefore(calls[..n][..i], calls[..n][i].now)
    {
      assert calls[..n][..i] == calls[..i];
    }
    AcceptedIffLive(c, calls[..n], token, early);
    AcceptedIffLive(c, calls, token, now);
    LifeOnlyEnds(c, calls, n, token);
  }

  // ---------------------------------------------------------------- tickets

  /** How many streams a ticket has opened. */
  function StreamsOpened(c: Config, calls: seq<Call>, ticket: string): nat {
    if calls == [] then 0
    else
      var front, last := calls[..|calls| - 1], calls[|calls| - 1];
      StreamsOpened(c, front, ticket) +
      if last.OpenStream? && last.ticket == ticket && Serve(c, After(c, front), last).1.StreamOpened? then 1 else 0
  }

  predicate Drawn(calls: seq<Call>, ticket: string) {
    exists i :: 0 <= i < |calls| && calls[i].IssueTicket? && calls[i].ticket == ticket
  }

  /** A ticket in the table was issued, with its deadline 30 seconds after the issue. */
  predicate TicketsIssued(c: Config, calls: seq<Call>, ticket: string) {
    ticket in After(c, calls).tickets ==>
      exists i: nat :: i < |calls| && IssuedAt(c, calls, i, ticket)
        && After(c, calls).tickets[ticket] == Ticket(calls[i].token, calls[i].later + TICKET_LIFETIME)
  }

  predicate IssuedAt(c: Config, calls: seq<Call>, i: nat, ticket: string)
    requires i < |calls|
  {
    calls[i].IssueTicket? && calls[i].ticket == ticket && ReplyAt(c, calls, i) == Issued(ticket)
  }

  lemma ReplyInFront(c: Config, calls: seq<Call>, i: nat)
    requires i < |calls| - 1
    ensures ReplyAt(c, calls, i) == ReplyAt(c, calls[..|calls| - 1], i)
  {
    assert calls[..|calls| - 1][..i] == calls[..i];
  }

  lemma {:induction false} TicketsWereIssued(c: Config, calls: seq<Call>, ticket: string)
    ensures TicketsIssued(c, calls, ticket)
  {
    hide RequirePrincipal, RequireAdminOrBootstrap, Authenticate;
    if calls != [] && ticket in After(c, calls).tickets {
      var n := |calls| - 1;
      var front, last := calls[..n], calls[n];
      if last.IssueTicket? && last.ticket == ticket && Serve(c, After(c, front), last).1.Issued? {
        assert IssuedAt(c, calls, n, ticket);
      } else {
        TicketsWereIssued(c, front, ticket);
        var i: nat :| i < n && IssuedAt(c, front, i, ticket)
          && After(c, front).tickets[ticket] == Ticket(front[i].token, front[i].later + TICKET_LIFETIME);
        ReplyInFront(c, calls, i);
        assert IssuedAt(c, calls, i, ticket);
      }
    }
  }

  lemma DrawnFront(calls: seq<Call>, ticket: string)
    requires calls != [] && FreshDraws(calls)
    ensures var front, last := calls[..|calls| - 1], calls[|calls| - 1];
            && FreshDraws(front)
            && (Drawn(front, ticket) ==> Drawn(calls, ticket))
            && (last.IssueTicket? && last.ticket == ticket ==> Drawn(calls, ticket) && !Drawn(front, ticket))
  {
    var front, last := calls[..|calls| - 1], calls[|calls| - 1];
    if Drawn(front, ticket) {
      var i :| 0 <= i < |front| && front[i].IssueTicket? && front[i].ticket == ticket;
      assert calls[i].IssueTicket? && calls[i].ticket == ticket;
    }
    if last.IssueTicket? && last.ticket == ticket {
      assert calls[|calls| - 1].ticket == ticket;
    }
  }

  /** Only issuing a ticket adds it to the table, and only presenting it opens a stream and removes it. */
  lemma TicketStep(c: Config, s: State, call: Call, ticket: string)
    ensures var (after, reply) := Serve(c, s, call);
            && (ticket in after.tickets && ticket !in s.tickets ==> call.IssueTicket? && call.ticket == ticket)
            && (call.OpenStream? && call.ticket == ticket && reply.StreamOpened? ==>
                  ticket in s.tickets && ticket !in after.tickets)
  {
    hide RequirePrincipal, RequireAdminOrBootstrap, Authenticate, FindByName;
  }

  /** An undrawn ticket opened nothing, and a ticket still in the table has not been used. */
  lemma {:induction false} TicketBudget(c: Config, calls: seq<Call>, ticket: string)
    requires FreshDraws(calls)
    ensures var waiting := if ticket in After(c, calls).tickets then 1 else 0;
            StreamsOpened(c, calls, ticket) + waiting <= if Drawn(calls, ticket) then 1 else 0
  {
    if calls != [] {
      DrawnFront(calls, ticket);
      hide FreshDraws, Drawn, Serve;
      var front := calls[..|calls| - 1];
      TicketBudget(c, front, ticket);
      TicketStep(c, After(c, front), calls[|calls| - 1], ticket);
    }
  }

  /** Each ticket opens at most one stream. */
  lemma TicketOpensOnce(c: Config, calls: seq<Call>, ticket: string)
    requires FreshDraws(calls)
    ensures StreamsOpened(c, calls, ticket) <= 1
  {
    TicketBudget(c, calls, ticket);
  }

  /** A stream opens within 30 seconds of its ticket's issue, for that ticket's session, while it is live. */
  lemma StreamOpensInTime(c: Config, calls: seq<Call>, ticket: string, now: int, later: int)
    requires Serve(c, After(c, calls), OpenStream(ticket, now, later)).1.StreamOpened?
    ensures exists i: nat :: i < |calls| && IssuedAt(c, calls, i, ticket)
              && now <= calls[i].later + TICKET_LIFETIME && Accepted(c, calls, calls[i].token, later)
  {
    TicketsWereIssued(c, calls, ticket);
    hide RequirePrincipal, After;
  }

  // ---------------------------------------------------------------- first-user bootstrap

  /** The header carries the token of a session that is accepted and belongs to a stored admin. */
  predicate PresentsAdmin(s: State, header: Option<string>, now: int) {
    && header.Some? && header.value in s.sessions
    && RequirePrincipal(s, header.value, now).Success?
    && exists i :: 0 <= i < |s.users| && s.users[i].id == s.sessions[header.value].userId && s.users[i].role == Admin
  }

  lemma GrantedToAdmin(s: State, header: Option<string>, now: int)
    requires s.users != [] && RequireAdminOrBootstrap(s, header, now).Success?
    ensures PresentsAdmin(s, header, now)
  {
    var user := FindById(s.users, s.sessions[header.value].userId).value;
    var i :| 0 <= i < |s.users| && s.users[i] == user;
    assert WithId(s.sessions[header.value].userId)(user);
  }

  /**
   Users are only added, one by one; and once there is a user, only for a caller who presents the
   token of a live admin session.
   */
  lemma UsersGrowUnderAdmin(c: Config, s: State, call: Call)
    ensures var after := Serve(c, s, call).0.users;
            || after == s.users
            || (call.CreateUser? && |after| == |s.users| + 1 && after[..|s.users|] == s.users
                && (s.users != [] ==> PresentsAdmin(s, call.header, call.now)))
  {
    if call.CreateUser? && s.users != [] && RequireAdminOrBootstrap(s, call.header, call.now).Success? {
      GrantedToAdmin(s, call.header, call.now);
    }
    hide FindByName, FindById, RequirePrincipal, Authenticate, PresentsAdmin;
  }

  /**
   Creation is granted exactly during bootstrap or to a session that was issued, not logged out
   and not expired, and whose user is an admin.
   */
  lemma CreationIsGrantedIff(c: Config, calls: seq<Call>, header: Option<string>, now: int)
    requires ClockNonDecreasing(calls) && TimedBefore(calls, now) && FreshDraws(calls)
    ensures var s := After(c, calls);
            RequireAdminOrBootstrap(s, header, now).Success? <==>
              || s.users == []
              || (&& header.Some? && header.value != ""
                  && LifeOf(c, calls, header.value).Live? && now < LifeOf(c, calls, header.value).end
                  && header.value in s.sessions
                  && FindById(s.users, s.sessions[header.value].userId).Some?
                  && FindById(s.users, s.sessions[header.value].userId).value.role == Admin)
  {
    if header.Some? {
      AcceptedIffLive(c, calls, header.value, now);
    }
    hide FindById, LifeOf, After;
  }

  /** In every reachable state, two or more users imply that the first one is an admin. */
  lemma {:induction false} FirstUserIsAdmin(c: Config, calls: seq<Call>)
    ensures |After(c, calls).users| >= 2 ==> After(c, calls).users[0].role == Admin
  {
    if calls != [] {
      var front := calls[..|calls| - 1];
      FirstUserIsAdmin(c, front);
      UsersGrowUnderAdmin(c, After(c, front), calls[|calls| - 1]);
      hide Serve;
    }
  }

  /**
   Each call must run alone: two that both found no users go on to create two, and the first can
   be an operator.
   */
  lemma ConcurrentBootstraps(c: Config, s: State, first: Call, second: Call)
    requires s.users == [] && s.tenant.Some? && first.CreateUser? && second.CreateUser?
    requires first.role == Operator && first.username != second.username
    ensures RequireAdminOrBootstrap(s, first.header, first.now).Success?
    ensures RequireAdminOrBootstrap(s, second.header, second.now).Success?
    ensures var users := CreateLocalUser(c, CreateLocalUser(c, s, first).0, second).0.users;
            |users| == 2 && users[0].role == Operator
  {
    var created := CreateLocalUser(c, s, first).0;
    assert FindUser([], Named(first.username)).None?;
    assert created.users[1..] == [];
  }

  /** A first user who is an operator stays the only user, whatever is called later. */
  lemma {:induction false} OperatorBootstrapIsFinal(c: Config, calls: seq<Call>, n: nat)
    requires n <= |calls| && |After(c, calls[..n]).users| == 1 && After(c, calls[..n]).users[0].role == Operator
    ensures After(c, calls).users == After(c, calls[..n]).users
  {
    if n < |calls| {
      var front := calls[..|calls| - 1];
      assert front[..n] == calls[..n];
      OperatorBootstrapIsFinal(c, front, n);
      UsersGrowUnderAdmin(c, After(c, front), calls[|calls| - 1]);
      hide Serve;
    } else {
      assert calls[..n] == calls;
    }
  }

  // ---------------------------------------------------------------- accounts

  predicate DistinctNames(users: seq<User>) {
    forall i, j | 0 <= i < j < |users| :: users[i].username != users[j].username
  }

  /** A user that was added carries a name nobody had. */
  lemma NewNameIsFree(c: Config, s: State, call: Call)
    ensures var after := Serve(c, s, call).0.users;
            after == s.users ||
            (after[..|s.users|] == s.users && |after| == |s.users| + 1
             && forall i | 0 <= i < |s.users| :: s.users[i].username != after[|s.users|].username)
  {
    hide RequirePrincipal, RequireAdminOrBootstrap, Authenticate, FindById, FindByName;
  }

  /** Usernames are unique in every reachable state. */
  lemma {:induction false} UsernamesAreUnique(c: Config, calls: seq<Call>)
    ensures DistinctNames(After(c, calls).users)
  {
    if calls != [] {
      var front := calls[..|calls| - 1];
      UsernamesAreUnique(c, front);
      NewNameIsFree(c, After(c, front), calls[|calls| - 1]);
      hide Serve;
    }
  }

  lemma ServeKeepsNamed(c: Config, s: State, call: Call, username: string)
    requires FindByName(s.users, username).Some?
    ensures FindByName(Serve(c, s, call).0.users, username) == FindByName(s.users, username)
  {
    var after := Serve(c, s, call).0.users;
    NewNameIsFree(c, s, call);
    hide Serve, FindUser;
    if after != s.users {
      FindUserAppend(s.users, after[|s.users|], Named(username));
      assert after == s.users + [after[|s.users|]];
    }
  }

  /** The account a call creates can be logged into with its password ever after. */
  lemma {:induction false} CreatedUserCanLogIn(c: Config, calls: seq<Call>, n: nat)
    requires n < |calls| && calls[n].CreateUser? && ReplyAt(c, calls, n) == Done
    ensures var user := Authenticate(c, After(c, calls).users, calls[n].username, calls[n].password);
            user.Some? && user.value.id == calls[n].userId && user.value.role == calls[n].role
  {
    var front, last := calls[..|calls| - 1], calls[|calls| - 1];
    if n == |front| {
      FindUserAppend(After(c, front).users, After(c, calls).users[|After(c, front).users|], Named(last.username));
    } else {
      ReplyInFront(c, calls, n);
      CreatedUserCanLogIn(c, front, n);
      ServeKeepsNamed(c, After(c, front), last, calls[n].username);
      hide Serve;
    }
  }
}
