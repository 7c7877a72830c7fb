/**
 What each call on users, sessions and tickets answers and changes, told by the calls that came
 before it: who was created with which password, which tickets were issued and presented.
 */
module Access {
  import opened Text
  import opened Records
  import opened Identity

  // ---------------------------------------------------------------- accounts

  predicate CreatedAt(c: Config, calls: seq<Call>, i: nat)
    requires i < |calls|
  {
    calls[i].CreateUser? && ReplyAt(c, calls, i) == Done
  }

  /** The user that a creation leaves in the table. */
  function Account(c: Config, call: Call, tenantId: string): User
    requires call.CreateUser?
  {
    User(call.userId, tenantId, call.username, call.displayName, call.role, c.hash(call.password, call.salt), call.salt)
  }

  /** The caller may create users: there are none, or the header names a live session of an admin. */
  predicate MayCreate(s: State, header: Option<string>, now: int) {
    || s.users == []
    || (&& header.Some? && header.value != "" && header.value in s.sessions
        && s.sessions[header.value].revokedAt.None? && now < s.sessions[header.value].expiresAt
        && FindById(s.users, s.sessions[header.value].userId).Some?
        && FindById(s.users, s.sessions[header.value].userId).value.role == Admin)
  }

  function TenantOr(s: State, tenantId: string): string {
    if s.tenant.Some? then s.tenant.value else tenantId
  }

  /** Create: authorisation, then the limiter, then tenant and name, each with its own answer. */
  lemma CreationOutcome(c: Config, s: State, call: Call)
    requires call.CreateUser?
    ensures var (after, reply) := Serve(c, s, call);
            var tenantId := TenantOr(s, call.tenantId);
            if !MayCreate(s, call.header, call.now) then reply == Refused(UnauthorizedError) && after == s
            else if !call.withinLimit then
              var actor := if s.users == [] then None else Some(s.sessions[call.header.value].userId);
              var event := AuthEvent(tenantId, actor, UserCreationBlocked(call.username));
              && after == State(Some(tenantId), s.users, s.sessions, s.tickets,
                                if call.recorded then s.trail + [event] else s.trail)
              && reply == (if call.recorded then TooManyRequests else Refused(StorageError))
            else if s.tenant.None? || exists u <- s.users :: u.username == call.username then
              reply == Refused(ConflictError) && after == s
            else
              && reply == Done
              && after == State(s.tenant, s.users + [
                   User(call.userId, s.tenant.value, call.username, call.displayName, call.role,
                        c.hash(call.password, call.salt), call.salt)], s.sessions, s.tickets, s.trail)
  {
    if s.users != [] && call.header.Some? && call.header.value in s.sessions {
      assert FindById(s.users, s.sessions[call.header.value].userId).Some? ==>
        WithId(s.sessions[call.header.value].userId)(FindById(s.users, s.sessions[call.header.value].userId).value);
    }
    hide FindById;
  }

  /** Only a creation adds a user, and the tenant stays once it is there. */
  lemma UsersStep(c: Config, s: State, call: Call)
    ensures var (after, reply) := Serve(c, s, call);
            && (s.tenant.Some? ==> after.tenant == s.tenant)
            && (if call.CreateUser? && reply == Done then
                  s.tenant.Some? && after.users == s.users + [Account(c, call, s.tenant.value)]
                else after.users == s.users)
  {
    if call.CreateUser? {
      CreationOutcome(c, s, call);
    }
    hide RequirePrincipal, RequireAdminOrBootstrap, Authenticate, FindByName, FindById, MayCreate;
  }

  /** Every stored user was created by one of the calls, in the one tenant. */
  ghost predicate AllCreated(c: Config, calls: seq<Call>, s: State) {
    forall u <- s.users :: s.tenant.Some? && exists i: nat ::
      i < |calls| && CreatedAt(c, calls, i) && u == Account(c, calls[i], s.tenant.value)
  }

  /** Every successful creation is in the table, as it was asked for. */
  ghost predicate AllStored(c: Config, calls: seq<Call>, s: State) {
    forall i: nat | i < |calls| && CreatedAt(c, calls, i) ::
      s.tenant.Some? && Account(c, calls[i], s.tenant.value) in s.users
  }

  lemma CreatedInFront(c: Config, calls: seq<Call>, i: nat)
    requires i < |calls| - 1
    ensures CreatedAt(c, calls, i) <==> CreatedAt(c, calls[..|calls| - 1], i)
  {
    ReplyInFront(c, calls, i);
    hide ReplyAt;
  }

  lemma UsersCreatedStep(c: Config, calls: seq<Call>)
    requires calls != []
    requires var front := calls[..|calls| - 1]; AllCreated(c, front, After(c, front))
    ensures AllCreated(c, calls, After(c, calls))
  {
    hide Serve, ReplyAt, Account;
    var n := |calls| - 1;
    var front, last := calls[..n], calls[n];
    var s, after := After(c, front), After(c, calls);
    UsersStep(c, s, last);
    LastCreated(c, calls);
    forall u <- after.users
      ensures after.tenant.Some? && exists i: nat ::
                i < |calls| && CreatedAt(c, calls, i) && u == Account(c, calls[i], after.tenant.value)
    {
      if u in s.users {
        var i: nat :| i < n && CreatedAt(c, front, i) && u == Account(c, front[i], s.tenant.value);
        CreatedInFront(c, calls, i);
        assert CreatedAt(c, calls, i) && calls[i] == front[i];
      } else {
        assert CreatedAt(c, calls, n);
      }
    }
  }

  lemma LastCreated(c: Config, calls: seq<Call>)
    requires calls != []
    ensures var n := |calls| - 1;
            && (CreatedAt(c, calls, n) <==> calls[n].CreateUser? && Serve(c, After(c, calls[..n]), calls[n]).1 == Done)
            && After(c, calls) == Serve(c, After(c, calls[..n]), calls[n]).0
  {
  }

  lemma UsersStoredStep(c: Config, calls: seq<Call>)
    requires calls != []
    requires var front := calls[..|calls| - 1]; AllStored(c, front, After(c, front))
    ensures AllStored(c, calls, After(c, calls))
  {
    hide Serve, ReplyAt, Account;
    var n := |calls| - 1;
    var front, last := calls[..n], calls[n];
    var s, after := After(c, front), After(c, calls);
    UsersStep(c, s, last);
    LastCreated(c, calls);
    forall i: nat | i < |calls| && CreatedAt(c, calls, i)
      ensures after.tenant.Some? && Account(c, calls[i], after.tenant.value) in after.users
    {
      if i < n {
        CreatedInFront(c, calls, i);
        assert Account(c, front[i], s.tenant.value) in s.users;
      }
    }
  }

  /** The user table is the successful creations, and nothing else. */
  lemma {:induction false} UsersAreCreations(c: Config, calls: seq<Call>)
    ensures AllCreated(c, calls, After(c, calls)) && AllStored(c, calls, After(c, calls))
  {
    hide AllCreated, AllStored;
    if calls != [] {
      UsersAreCreations(c, calls[..|calls| - 1]);
      UsersCreatedStep(c, calls);
      UsersStoredStep(c, calls);
    } else {
      NobodyYet(c);
    }
  }

  lemma NobodyYet(c: Config)
    ensures AllCreated(c, [], After(c, [])) && AllStored(c, [], After(c, []))
  {
  }

  // ---------------------------------------------------------------- credentials

  /** The call created the account of that name, and the password hashes as the one it was created with. */
  predicate CreatedWith(c: Config, calls: seq<Call>, i: nat, username: string, password: string) {
    && i < |calls| && CreatedAt(c, calls, i) && calls[i].username == username
    && c.hash(password, calls[i].salt) == c.hash(calls[i].password, calls[i].salt)
  }

  lemma SameName(users: seq<User>, u: User, v: User)
    requires DistinctNames(users) && u in users && v in users && u.username == v.username
    ensures u == v
  {
    var i :| 0 <= i < |users| && users[i] == u;
    var j :| 0 <= j < |users| && users[j] == v;
  }

  lemma GoodCredentials(c: Config, calls: seq<Call>, i: nat, username: string, password: string)
    requires CreatedWith(c, calls, i, username, password)
    ensures var s := After(c, calls);
            && s.tenant.Some?
            && Authenticate(c, s.users, username, password) == Some(Account(c, calls[i], s.tenant.value))
  {
    hide After, ReplyAt;
    var s := After(c, calls);
    UsersAreCreations(c, calls);
    UsernamesAreUnique(c, calls);
    var account := Account(c, calls[i], s.tenant.value);
    SameName(s.users, account, FindByName(s.users, username).value);
    hide AllCreated, AllStored, DistinctNames, FindByName;
  }

  lemma CheckedCredentials(c: Config, calls: seq<Call>, username: string, password: string)
    requires Authenticate(c, After(c, calls).users, username, password).Some?
    ensures exists i: nat :: CreatedWith(c, calls, i, username, password)
  {
    hide After, ReplyAt, FindByName;
    var s := After(c, calls);
    UsersAreCreations(c, calls);
    var user := Authenticate(c, s.users, username, password).value;
    var i: nat :| i < |calls| && CreatedAt(c, calls, i) && user == Account(c, calls[i], s.tenant.value);
    assert CreatedWith(c, calls, i, username, password);
  }

  // ---------------------------------------------------------------- login

  function Trail(s: State, recorded: bool, event: AuthEvent): seq<AuthEvent> {
    if recorded then s.trail + [event] else s.trail
  }

  /** One more session, of the created user, in its tenant, for the time to live. */
  predicate AddsSession(c: Config, s: State, after: State, call: Call, userId: string)
    requires call.Login?
  {
    after.sessions == s.sessions[call.token :=
      Session(call.sessionId, TenantOr(s, call.tenantId), userId, call.now + c.sessionTtl, None)]
  }

  lemma AllInTenant(c: Config, calls: seq<Call>, u: User)
    requires u in After(c, calls).users
    ensures After(c, calls).tenant == Some(u.tenantId)
  {
    UsersAreCreations(c, calls);
    hide After, ReplyAt;
  }

  /** What a login with good credentials leads to. */
  predicate Welcomes(c: Config, s: State, after: State, reply: Reply, call: Call, userId: string)
    requires call.Login?
  {
    && AddsSession(c, s, after, call, userId)
    && if call.now + c.sessionTtl <= call.later then reply == Refused(UnauthorizedError) && after.trail == s.trail
       else
         && reply == (if call.recorded then LoggedIn(call.token) else Refused(StorageError))
         && after.trail == Trail(s, call.recorded,
              AuthEvent(TenantOr(s, call.tenantId), Some(userId), LoginSucceeded(call.sessionId)))
  }

  lemma LoginWelcomes(c: Config, s: State, call: Call, user: User)
    requires call.Login? && call.withinLimit && s.tenant == Some(user.tenantId) && user in s.users
    requires forall u <- s.users :: u.tenantId == user.tenantId
    requires Authenticate(c, s.users, call.username, call.password) == Some(user)
    ensures Welcomes(c, s, ServeLogin(c, s, call).0, ServeLogin(c, s, call).1, call, user.id)
  {
    hide Authenticate;
    assert WithId(user.id)(user);
    var found := FindById(s.users, user.id);
    assert found.Some? && WithId(user.id)(found.value);
    hide FindUser;
  }

  /**
   Login: the limiter first; then it succeeds exactly for the password of a created account. A
   blocked or refused attempt adds no session and is recorded as such.
   */
  lemma LoginOutcome(c: Config, calls: seq<Call>, call: Call)
    requires call.Login?
    ensures var s := After(c, calls);
            var (after, reply) := Serve(c, s, call);
            var tenantId := TenantOr(s, call.tenantId);
            && after.tenant == Some(tenantId) && after.users == s.users && after.tickets == s.tickets
            && if !call.withinLimit then
                 && after.sessions == s.sessions
                 && after.trail == Trail(s, call.recorded, AuthEvent(tenantId, None, LoginBlocked(call.username)))
                 && reply == (if call.recorded then TooManyRequests else Refused(StorageError))
               else if !exists i: nat :: CreatedWith(c, calls, i, call.username, call.password) then
                 && after.sessions == s.sessions
                 && after.trail == Trail(s, call.recorded, AuthEvent(tenantId, None, LoginFailed(call.username)))
                 && reply == Refused(if call.recorded then UnauthorizedError else StorageError)
               else
                 exists i: nat ::
                   && CreatedWith(c, calls, i, call.username, call.password)
                   && Welcomes(c, s, after, reply, call, calls[i].userId)
  {
    hide After, CreatedWith, Authenticate, Welcomes, RequirePrincipal;
    var s := After(c, calls);
    var user := Authenticate(c, s.users, call.username, call.password);
    if i: nat :| CreatedWith(c, calls, i, call.username, call.password) {
      GoodCredentials(c, calls, i, call.username, call.password);
      if call.withinLimit {
        CredentialsAreStored(c, s, call.username, call.password);
        forall u <- s.users ensures s.tenant == Some(u.tenantId) {
          AllInTenant(c, calls, u);
        }
        LoginWelcomes(c, s, call, user.value);
      }
    } else if user.Some? {
      CheckedCredentials(c, calls, call.username, call.password);
    }
  }

  lemma CredentialsAreStored(c: Config, s: State, username: string, password: string)
    ensures var user := Authenticate(c, s.users, username, password);
            user.Some? ==> user.value in s.users
  {
  }

  /** Login `j` presented the password of the account that call `i` created, and was given the session. */
  predicate LoggedInAt(c: Config, calls: seq<Call>, j: nat, i: nat, token: string, session: Session) {
    && j < |calls| && calls[j].Login? && calls[j].token == token && calls[j].withinLimit
    && CreatedWith(c, calls[..j], i, calls[j].username, calls[j].password)
    && session.userId == calls[i].userId && session.id == calls[j].sessionId
    && session.expiresAt == calls[j].now + c.sessionTtl
  }

  lemma LoggedInStays(c: Config, calls: seq<Call>, j: nat, i: nat, token: string, session: Session)
    requires calls != [] && LoggedInAt(c, calls[..|calls| - 1], j, i, token, session)
    ensures LoggedInAt(c, calls, j, i, token, session)
  {
    assert calls[..|calls| - 1][..j] == calls[..j];
    hide CreatedWith;
  }

  /** A call adds at most the session of its login; a logout changes when a session was revoked. */
  lemma SessionsStep(c: Config, calls: seq<Call>, call: Call, token: string)
    requires token in Serve(c, After(c, calls), call).0.sessions
    ensures var s, session := After(c, calls), Serve(c, After(c, calls), call).0.sessions[token];
            || (token in s.sessions && session == s.sessions[token].(revokedAt := session.revokedAt))
            || exists i: nat :: LoggedInAt(c, calls + [call], |calls|, i, token, session)
  {
    hide After, RequireAdminOrBootstrap, FindByName, FindById, Authenticate, ServeLogin, ReplyAt;
    var s := After(c, calls);
    if call.Login? {
      LoginOutcome(c, calls, call);
      assert (calls + [call])[..|calls|] == calls;
      if call.withinLimit && token == call.token
         && exists i: nat :: CreatedWith(c, calls, i, call.username, call.password)
      {
        var i: nat :| CreatedWith(c, calls, i, call.username, call.password)
                      && Welcomes(c, s, Serve(c, s, call).0, Serve(c, s, call).1, call, calls[i].userId);
        assert (calls + [call])[i] == calls[i] && (calls + [call])[|calls|] == call;
        assert LoggedInAt(c, calls + [call], |calls|, i, token, Serve(c, s, call).0.sessions[token]);
      }
    }
  }

  /** Every session there is was given to a login that presented the password of a created account. */
  lemma {:induction false} SessionsAreLogins(c: Config, calls: seq<Call>, token: string)
    requires token in After(c, calls).sessions
    ensures exists j: nat, i: nat :: LoggedInAt(c, calls, j, i, token, After(c, calls).sessions[token])
  {
    var n := |calls| - 1;
    var front, last := calls[..n], calls[n];
    var s, session := After(c, front), After(c, calls).sessions[token];
    SessionsStep(c, front, last, token);
    hide Serve;
    assert front + [last] == calls;
    if token in s.sessions && session == s.sessions[token].(revokedAt := session.revokedAt) {
      SessionsAreLogins(c, front, token);
      var j: nat, i: nat :| LoggedInAt(c, front, j, i, token, s.sessions[token]);
      LoggedInStays(c, calls, j, i, token, s.sessions[token]);
      assert LoggedInAt(c, calls, j, i, token, session);
    }
  }

  // ---------------------------------------------------------------- logout

  /** Logout: a live token is revoked for good, and nothing else changes. */
  lemma LogoutOutcome(c: Config, calls: seq<Call>, token: string, now: int)
    requires ClockNonDecreasing(calls) && TimedBefore(calls, now) && FreshDraws(calls)
    ensures var s := After(c, calls);
            var (after, reply) := Serve(c, s, Logout(token, now));
            if LifeOf(c, calls, token).Live? && now < LifeOf(c, calls, token).end then
              && reply == Done && token in s.sessions
              && after == State(s.tenant, s.users,
                   s.sessions[token := Session(s.sessions[token].id, s.sessions[token].tenantId,
                                               s.sessions[token].userId, s.sessions[token].expiresAt, Some(now))],
                   s.tickets, s.trail)
              && forall at :: RequirePrincipal(after, token, at) == Failure(UnauthorizedError)
            else reply == Refused(UnauthorizedError) && after == s
  {
    AcceptedIffLive(c, calls, token, now);
    hide After, LifeOf, FindById;
  }

  // ---------------------------------------------------------------- tickets

  /** Issue: a live token gets a ticket that is good for 30 seconds. */
  lemma TicketOutcome(c: Config, calls: seq<Call>, token: string, now: int, later: int, ticket: string)
    requires ClockNonDecreasing(calls) && TimedBefore(calls, now) && FreshDraws(calls)
    ensures var s := After(c, calls);
            var (after, reply) := Serve(c, s, IssueTicket(token, now, later, ticket));
            if LifeOf(c, calls, token).Live? && now < LifeOf(c, calls, token).end then
              && reply == Issued(ticket)
              && after == State(s.tenant, s.users, s.sessions,
                                s.tickets[ticket := Ticket(token, later + 30_000_000)], s.trail)
            else reply == Refused(UnauthorizedError) && after == s
  {
    hide After, LifeOf, RequirePrincipal, ClockNonDecreasing, TimedBefore, FreshDraws;
    AcceptedIffLive(c, calls, token, now);
    RefusedAsUnauthorized(After(c, calls), token, now);
  }

  lemma RefusedAsUnauthorized(s: State, token: string, now: int)
    ensures RequirePrincipal(s, token, now).Failure? ==>
              RequirePrincipal(s, token, now) == Failure(UnauthorizedError)
  {
  }

  predicate Presents(call: Call, ticket: string) {
    call.OpenStream? && call.ticket == ticket
  }

  /** The ticket was issued by call `i`, and no later call presented it. */
  predicate Unused(c: Config, calls: seq<Call>, i: nat, ticket: string) {
    && i < |calls| && IssuedAt(c, calls, i, ticket)
    && forall j | i < j < |calls| :: !Presents(calls[j], ticket)
  }

  lemma IssuedTicketIsStored(c: Config, s: State, call: Call)
    requires call.IssueTicket? && Serve(c, s, call).1 == Issued(call.ticket)
    ensures var after := Serve(c, s, call).0;
            && call.ticket in after.tickets
            && after.tickets[call.ticket] == Ticket(call.token, call.later + TICKET_LIFETIME)
  {
    hide RequirePrincipal;
  }

  /** Another call leaves a ticket alone, unless it presents it or draws it again. */
  lemma TicketStays(c: Config, s: State, call: Call, ticket: string)
    requires !(call.IssueTicket? && call.ticket == ticket)
    ensures var after := Serve(c, s, call).0;
            if Presents(call, ticket) then ticket !in after.tickets
            else
              && (ticket in after.tickets <==> ticket in s.tickets)
              && (ticket in s.tickets ==> after.tickets[ticket] == s.tickets[ticket])
  {
    if call.Login? {
      LoginAddsSession(c, EnsureTenant(s, call.tenantId), call);
    }
    hide RequirePrincipal, RequireAdminOrBootstrap, FindByName, Authenticate, ServeLogin;
  }

  /** An issued ticket stays in the table until it is presented. */
  lemma {:induction false} TicketWaits(c: Config, calls: seq<Call>, i: nat, ticket: string)
    requires i < |calls| && IssuedAt(c, calls, i, ticket) && FreshDraws(calls)
    ensures ticket in After(c, calls).tickets <==> Unused(c, calls, i, ticket)
    ensures ticket in After(c, calls).tickets ==>
              After(c, calls).tickets[ticket] == Ticket(calls[i].token, calls[i].later + TICKET_LIFETIME)
  {
    hide Serve;
    var n := |calls| - 1;
    var front, last := calls[..n], calls[n];
    if i == n {
      IssuedTicketIsStored(c, After(c, front), last);
    } else {
      ReplyInFront(c, calls, i);
      TicketWaits(c, front, i, ticket);
      TicketStays(c, After(c, front), last, ticket);
      assert Unused(c, calls, i, ticket) <==> Unused(c, front, i, ticket) && !Presents(last, ticket) by {
        UnusedInFront(c, calls, i, ticket);
      }
    }
  }

  lemma UnusedInFront(c: Config, calls: seq<Call>, i: nat, ticket: string)
    requires i < |calls| - 1
    ensures Unused(c, calls, i, ticket) <==>
              Unused(c, calls[..|calls| - 1], i, ticket) && !Presents(calls[|calls| - 1], ticket)
  {
    var n := |calls| - 1;
    var front := calls[..n];
    ReplyInFront(c, calls, i);
    hide ReplyAt, Presents;
    if Unused(c, front, i, ticket) && !Presents(calls[n], ticket) {
      forall j | i < j < |calls| ensures !Presents(calls[j], ticket) {
        assert j < n ==> front[j] == calls[j];
      }
    } else if Unused(c, calls, i, ticket) {
      forall j | i < j < n ensures !Presents(front[j], ticket) {
        assert front[j] == calls[j];
      }
    }
  }

  /** The ticket is good: issued, never presented since, in time, and its session accepted. */
  predicate OpensWith(c: Config, calls: seq<Call>, i: nat, ticket: string, now: int, later: int) {
    && Unused(c, calls, i, ticket)
    && now <= calls[i].later + 30_000_000
    && Accepted(c, calls, calls[i].token, later)
  }

  /** Opening a stream on the state alone. */
  lemma OpenedOrRefused(c: Config, s: State, ticket: string, now: int, later: int)
    ensures var (after, reply) := Serve(c, s, OpenStream(ticket, now, later));
            && after == State(s.tenant, s.users, s.sessions, s.tickets - {ticket}, s.trail)
            && if ticket in s.tickets && now <= s.tickets[ticket].deadline
                  && RequirePrincipal(s, s.tickets[ticket].token, later).Success?
               then reply == StreamOpened(RequirePrincipal(s, s.tickets[ticket].token, later).value.tenantId)
               else reply == Refused(UnauthorizedError)
  {
    if ticket in s.tickets {
      RefusedAsUnauthorized(s, s.tickets[ticket].token, later);
    }
    assert ticket !in s.tickets ==> s.tickets - {ticket} == s.tickets;
    hide RequirePrincipal;
  }

  /** A principal is the stored user of the session. */
  lemma PrincipalIsStored(s: State, token: string, now: int)
    requires RequirePrincipal(s, token, now).Success?
    ensures var p := RequirePrincipal(s, token, now).value;
            && token in s.sessions && p.sessionId == s.sessions[token].id
            && exists u <- s.users :: u.id == s.sessions[token].userId
                 && p.userId == u.id && p.tenantId == u.tenantId && p.role == u.role
  {
    var u := FindById(s.users, s.sessions[token].userId).value;
    assert WithId(s.sessions[token].userId)(u);
  }

  /**
   A stream opens exactly for an unused ticket in time whose session is accepted; and then it shows
   the tenant of the session's user. The ticket is gone in every case, and nothing else changes.
   */
  lemma StreamOpensIff(c: Config, calls: seq<Call>, ticket: string, now: int, later: int)
    requires FreshDraws(calls)
    ensures var s := After(c, calls);
            var (after, reply) := Serve(c, s, OpenStream(ticket, now, later));
            && after == State(s.tenant, s.users, s.sessions, s.tickets - {ticket}, s.trail)
            && if exists i: nat :: OpensWith(c, calls, i, ticket, now, later) then
                 exists i: nat, u ::
                   && OpensWith(c, calls, i, ticket, now, later)
                   && u in s.users && u.id == s.sessions[calls[i].token].userId
                   && s.tenant == Some(u.tenantId) && reply == StreamOpened(u.tenantId)
               else reply == Refused(UnauthorizedError)
  {
    var s := After(c, calls);
    OpenedOrRefused(c, s, ticket, now, later);
    TicketsWereIssued(c, calls, ticket);
    hide Serve, After, ReplyAt;
    if ticket in s.tickets {
      var i: nat :| i < |calls| && IssuedAt(c, calls, i, ticket)
        && s.tickets[ticket] == Ticket(calls[i].token, calls[i].later + TICKET_LIFETIME);
      TicketWaits(c, calls, i, ticket);
      if RequirePrincipal(s, calls[i].token, later).Success? && now <= calls[i].later + TICKET_LIFETIME {
        PrincipalIsStored(s, calls[i].token, later);
        var u :| u in s.users && u.id == s.sessions[calls[i].token].userId
          && u.tenantId == RequirePrincipal(s, calls[i].token, later).value.tenantId;
        AllInTenant(c, calls, u);
        assert OpensWith(c, calls, i, ticket, now, later);
      }
    }
    forall i: nat | OpensWith(c, calls, i, ticket, now, later)
      ensures ticket in s.tickets && s.tickets[ticket] == Ticket(calls[i].token, calls[i].later + TICKET_LIFETIME)
    {
      TicketWaits(c, calls, i, ticket);
    }
    hide RequirePrincipal, Unused;
  }
}
