/** Sessions and the audit trail: which accepted sessions have their login on record. */
module LoginAudit {
  import opened Text
  import opened Identity

  /** The trail tells who logged in to the session. */
  predicate LoginInTrail(trail: seq<AuthEvent>, userId: string, sessionId: string) {
    exists i :: 0 <= i < |trail| && trail[i].actor == Some(userId) && trail[i].body == LoginSucceeded(sessionId)
  }

  lemma LoginStaysInTrail(trail: seq<AuthEvent>, later: seq<AuthEvent>, userId: string, sessionId: string)
    requires LoginInTrail(trail, userId, sessionId) && trail <= later
    ensures LoginInTrail(later, userId, sessionId)
  {
    var i :| 0 <= i < |trail| && trail[i].actor == Some(userId) && trail[i].body == LoginSucceeded(sessionId);
    assert later[i] == trail[i];
  }

  /** The tokens of logins that did not get to commit their audit row. */
  function CutTokens(calls: seq<Call>): set<string> {
    set i | 0 <= i < |calls| && calls[i].Login? && !calls[i].recorded :: calls[i].token
  }

  lemma CutTokensSnoc(calls: seq<Call>)
    requires calls != []
    ensures var front, last := calls[..|calls| - 1], calls[|calls| - 1];
            CutTokens(calls) == CutTokens(front) + CutBy(last)
  {
    var front, last := calls[..|calls| - 1], calls[|calls| - 1];
    forall token ensures token in CutTokens(calls) <==> token in CutTokens(front) + CutBy(last) {
      if token in CutTokens(front) {
        var i :| 0 <= i < |front| && front[i].Login? && !front[i].recorded && front[i].token == token;
        assert calls[i].token == token;
      }
      if token in CutBy(last) {
        assert calls[|calls| - 1].token == token;
      }
    }
  }

  function CutBy(call: Call): set<string> {
    if call.Login? && !call.recorded then {call.token} else {}
  }

  // ---------------------------------------------------------------- no accepted session goes unreported

  predicate Reported(session: Session, trail: seq<AuthEvent>, now: int) {
    session.expiresAt <= now || LoginInTrail(trail, session.userId, session.id)
  }

  /** Every session that has not run out was reported when it was issued, unless its login was cut. */
  predicate SessionsReported(s: State, cut: set<string>, now: int) {
    forall token <- s.sessions :: Reported(s.sessions[token], s.trail, now) || token in cut
  }

  lemma LaterIsReported(session: Session, trail: seq<AuthEvent>, now: int, trailAfter: seq<AuthEvent>, after: int)
    requires Reported(session, trail, now) && trail <= trailAfter && now <= after
    ensures Reported(session, trailAfter, after) && forall at :: Reported(session.(revokedAt := at), trailAfter, after)
  {
    if LoginInTrail(trail, session.userId, session.id) {
      LoginStaysInTrail(trail, trailAfter, session.userId, session.id);
    }
  }

  /** A login reports its session, unless that has run out already. */
  lemma LoginReports(c: Config, s: State, call: Call)
    requires call.Login? && s.tenant.Some? && SessionsHaveUsers(s)
    ensures var after := ServeLogin(c, s, call).0;
            && s.trail <= after.trail
            && (after.sessions == s.sessions ||
                  exists session ::
                    && after.sessions == s.sessions[call.token := session]
                    && (Reported(session, after.trail, call.later) || !call.recorded))
  {
    hide FindById, FindByName;
    AuthenticatedIsStored(c, s, call.username, call.password);
    var (after, reply) := ServeLogin(c, s, call);
    if reply.LoggedIn? {
      var e := after.trail[|s.trail|];
      var session := after.sessions[call.token];
      assert e.actor == Some(session.userId) && e.body == LoginSucceeded(session.id) by {
        PrincipalOfSession(after, call.token, call.later);
      }
      assert Reported(session, after.trail, call.later);
    } else if after.sessions != s.sessions {
      var session := after.sessions[call.token];
      assert Reported(session, after.trail, call.later) || !call.recorded;
    }
  }

  lemma PrincipalOfSession(s: State, token: string, now: int)
    requires RequirePrincipal(s, token, now).Success?
    ensures token in s.sessions && RequirePrincipal(s, token, now).value.userId == s.sessions[token].userId
  {
    assert WithId(s.sessions[token].userId)(FindById(s.users, s.sessions[token].userId).value);
  }

  lemma ServeReports(c: Config, s: State, cut: set<string>, call: Call, before: int, now: int)
    requires SessionsHaveUsers(s) && SessionsReported(s, cut, before) && before <= now
    requires !call.Bootstrap? ==> EndOf(call) <= now
    ensures SessionsReported(Serve(c, s, call).0, cut + CutBy(call), now)
  {
    hide Reported, RequirePrincipal, RequireAdminOrBootstrap, FindById, FindByName, ServeLogin;
    var after := Serve(c, s, call).0;
    if call.Login? {
      LoginReports(c, EnsureTenant(s, call.tenantId), call);
      forall session | Reported(session, after.trail, call.later) ensures Reported(session, after.trail, now) {
        LaterIsReported(session, after.trail, call.later, after.trail, now);
      }
    } else if call.Logout? && RequirePrincipal(s, call.token, call.now).Success? {
      PrincipalOfSession(s, call.token, call.now);
    }
    forall token <- after.sessions
      ensures Reported(after.sessions[token], after.trail, now) || token in cut + CutBy(call)
    {
      if token in s.sessions && token !in cut {
        LaterIsReported(s.sessions[token], s.trail, before, after.trail, now);
      }
    }
  }

  lemma {:induction false} HistoryReports(c: Config, calls: seq<Call>, now: int)
    requires ClockNonDecreasing(calls) && TimedBefore(calls, now)
    ensures SessionsReported(After(c, calls), CutTokens(calls), now)
  {
    if calls != [] {
      ClockFront(calls, now);
      CutTokensSnoc(calls);
      hide ClockNonDecreasing, TimedBefore, Serve, SessionsReported, CutTokens, CutBy;
      var front, last := calls[..|calls| - 1], calls[|calls| - 1];
      ReachableSessionUsers(c, front);
      HistoryReports(c, front, now);
      ServeReports(c, After(c, front), CutTokens(front), last, now, now);
    }
  }

  // ---------------------------------------------------------------- what the trail tells was done

  /** No two logins draw the same session id. */
  predicate FreshSessionIds(calls: seq<Call>) {
    forall i, j | 0 <= i < j < |calls| ::
      calls[i].Login? && calls[j].Login? ==> calls[i].sessionId != calls[j].sessionId
  }

  predicate LoginOf(call: Call, token: string, sessionId: string) {
    call.Login? && call.token == token && call.sessionId == sessionId
  }

  predicate RecordedLogin(call: Call, sessionId: string) {
    call.Login? && call.recorded && call.sessionId == sessionId
  }

  /** What one call adds to the sessions and to the trail. */
  predicate Draws(s: State, after: State, call: Call) {
    && (forall token <- after.sessions ::
          || (token in s.sessions && after.sessions[token].id == s.sessions[token].id)
          || LoginOf(call, token, after.sessions[token].id))
    && (after.trail == s.trail ||
          (|after.trail| == |s.trail| + 1 && after.trail[..|s.trail|] == s.trail
           && (after.trail[|s.trail|].body.LoginSucceeded? ==>
                 RecordedLogin(call, after.trail[|s.trail|].body.sessionId))))
  }

  lemma ServeDraws(c: Config, s: State, call: Call)
    ensures Draws(s, Serve(c, s, call).0, call)
  {
    hide RequireAdminOrBootstrap, FindById, FindByName, Authenticate;
  }

  /** Sessions and login events come from logins. */
  ghost predicate SessionsDrawn(s: State, calls: seq<Call>) {
    forall token <- s.sessions :: exists i :: 0 <= i < |calls| && LoginOf(calls[i], token, s.sessions[token].id)
  }

  ghost predicate EventsDrawn(s: State, calls: seq<Call>) {
    forall k | 0 <= k < |s.trail| && s.trail[k].body.LoginSucceeded? ::
      exists i :: 0 <= i < |calls| && RecordedLogin(calls[i], s.trail[k].body.sessionId)
  }

  lemma DrawsSessions(s: State, after: State, calls: seq<Call>, call: Call)
    requires SessionsDrawn(s, calls) && Draws(s, after, call)
    ensures SessionsDrawn(after, calls + [call])
  {
    hide LoginOf, RecordedLogin;
    var all := calls + [call];
    forall token <- after.sessions
      ensures exists i :: 0 <= i < |all| && LoginOf(all[i], token, after.sessions[token].id)
    {
      if LoginOf(call, token, after.sessions[token].id) {
        assert LoginOf(all[|calls|], token, after.sessions[token].id);
      } else {
        var i :| 0 <= i < |calls| && LoginOf(calls[i], token, s.sessions[token].id);
        assert LoginOf(all[i], token, after.sessions[token].id);
      }
    }
  }

  lemma DrawsEvents(s: State, after: State, calls: seq<Call>, call: Call)
    requires EventsDrawn(s, calls) && Draws(s, after, call)
    ensures EventsDrawn(after, calls + [call])
  {
    hide LoginOf, RecordedLogin;
    var all := calls + [call];
    forall k | 0 <= k < |after.trail| && after.trail[k].body.LoginSucceeded?
      ensures exists i :: 0 <= i < |all| && RecordedLogin(all[i], after.trail[k].body.sessionId)
    {
      if k < |s.trail| {
        assert after.trail[k] == s.trail[k];
        var i :| 0 <= i < |calls| && RecordedLogin(calls[i], s.trail[k].body.sessionId);
        assert RecordedLogin(all[i], after.trail[k].body.sessionId);
      } else {
        assert RecordedLogin(all[|calls|], after.trail[k].body.sessionId);
      }
    }
  }

  lemma {:induction false} HistoryDraws(c: Config, calls: seq<Call>)
    ensures SessionsDrawn(After(c, calls), calls) && EventsDrawn(After(c, calls), calls)
  {
    hide Serve, Draws;
    if calls != [] {
      var front, last := calls[..|calls| - 1], calls[|calls| - 1];
      HistoryDraws(c, front);
      ServeDraws(c, After(c, front), last);
      DrawsSessions(After(c, front), After(c, calls), front, last);
      DrawsEvents(After(c, front), After(c, calls), front, last);
      assert front + [last] == calls;
    }
  }

  lemma CutLoginIsNotInTrail(c: Config, calls: seq<Call>, token: string)
    requires FreshDraws(calls) && FreshSessionIds(calls)
    requires token in After(c, calls).sessions && token in CutTokens(calls)
    ensures var session := After(c, calls).sessions[token];
            !LoginInTrail(After(c, calls).trail, session.userId, session.id)
  {
    var s := After(c, calls);
    var id := s.sessions[token].id;
    HistoryDraws(c, calls);
    hide After;
    var i :| 0 <= i < |calls| && LoginOf(calls[i], token, id);
    var k :| 0 <= k < |calls| && calls[k].Login? && !calls[k].recorded && calls[k].token == token;
    assert i == k;
    forall j | 0 <= j < |calls| ensures !RecordedLogin(calls[j], id) {
      assert j != i ==> !calls[j].Login? || calls[j].sessionId != id;
    }
    hide RecordedLogin, FreshDraws, FreshSessionIds;
  }

  /**
   Whoever holds an accepted token has the login of that user to that session in the audit trail,
   unless exactly that login was cut before its audit row.
   */
  lemma AcceptedSessionIsAuditedIff(c: Config, calls: seq<Call>, token: string, now: int)
    requires ClockNonDecreasing(calls) && TimedBefore(calls, now) && FreshDraws(calls) && FreshSessionIds(calls)
    requires Accepted(c, calls, token, now)
    ensures var s := After(c, calls);
            && token in s.sessions
            && (LoginInTrail(s.trail, s.sessions[token].userId, s.sessions[token].id) <==> token !in CutTokens(calls))
  {
    HistoryReports(c, calls, now);
    hide LoginInTrail, FreshDraws, FreshSessionIds, ClockNonDecreasing, TimedBefore, CutTokens, After;
    if token in CutTokens(calls) {
      CutLoginIsNotInTrail(c, calls, token);
    } else {
      assert Reported(After(c, calls).sessions[token], After(c, calls).trail, now);
    }
  }

  /** An installation with one user, who logs in; the login stops before its audit row. */
  function CutLogin(username: string, password: string, role: Role, salt: string): seq<Call> {
    [Bootstrap("t"),
     CreateUser(None, username, password, username, role, true, 0, "u", salt, "t", true),
     Login(username, password, true, 0, 0, "s", "token", "t", false)]
  }

  /** An instance: the token of that login is accepted, and the trail does not know it. */
  lemma CutLoginIsNotAudited(c: Config, username: string, password: string, role: Role, salt: string)
    requires c.sessionTtl > 0
    ensures var calls := CutLogin(username, password, role, salt);
            && Accepted(c, calls, "token", 0)
            && After(c, calls).trail == []
  {
    var calls := CutLogin(username, password, role, salt);
    assert calls[..2][..1] == calls[..1] && calls[..1][..0] == [];
    var s := After(c, calls[..2]);
    var user := User("u", "t", username, username, role, c.hash(password, salt), salt);
    assert s == State(Some("t"), [user], map[], map[], []) by {
      assert After(c, calls[..1]) == State(Some("t"), [], map[], map[], []);
    }
    assert FindByName([user], username) == Some(user) && FindById([user], "u") == Some(user);
    assert After(c, calls) == Serve(c, s, calls[2]).0;
  }
}
