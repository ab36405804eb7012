/** When a session starts, goes on, and ends: what the guard answers to access tokens, now and at every later moment. */
module SessionEnds {
  import opened Common
  import opened Accounts
  import opened SignupOtp
  import opened ServiceCalls
  import opened ServiceRuns
  import opened AccountInvariants
  import opened AccountLaws
  import R = RefreshSessions
  import P = PasswordResets

  /** Any token at all that names the session. */
  predicate Names(b: Bearer, f: Id) {
    b.Token? && b.session == Named(f)
  }

  /** The session is over: no access token naming it is honoured, and none of its refresh tokens can be used. */
  ghost predicate Over(s: Service, f: Id, cfg: Settings) {
    && (forall b :: Names(b, f) ==> CurrentUser(s, b) == Failure(Unauthorized))
    && (forall k :: 0 <= k < |s.sessions| && s.sessions[k].family == f ==>
      RefreshCall(s, k, cfg).1 == Failure(Unauthorized))
  }

  lemma DeadIsOver(s: Service, f: Id, cfg: Settings)
    requires R.Dead(s.sessions, f)
    ensures Over(s, f, cfg)
  {
    forall b: Bearer | Names(b, f)
      ensures CurrentUser(s, b) == Failure(Unauthorized)
    {
      if b.subject.Named? {
        R.DeadIsInactive(s.sessions, f, b.subject.id, s.accounts.clock);
      }
    }
  }

  /** Dead sessions stay over through every run of calls. */
  lemma DeadStaysOver(s: Service, f: Id, calls: seq<Call>, cfg: Settings)
    requires R.Dead(s.sessions, f)
    ensures Over(Run(s, calls, cfg), f, cfg)
  {
    var steps := RunFollows(s, calls, cfg);
    R.DeadForever(s.sessions, steps, cfg.refreshTtl, f);
    DeadIsOver(Run(s, calls, cfg), f, cfg);
  }

  /** Logging out with a live token ends the whole session at every later state, and touches no other session. */
  lemma LogoutEndsSession(s: Service, k: nat, calls: seq<Call>, cfg: Settings, b: Bearer)
    requires Sound(s, cfg) && k < |s.sessions| && s.sessions[k].revokedAt.None?
    ensures Over(Run(LogoutCall(s, k), calls, cfg), s.sessions[k].family, cfg)
    ensures !Names(b, s.sessions[k].family) ==> CurrentUser(LogoutCall(s, k), b) == CurrentUser(s, b)
  {
    R.LogoutEndsFamily(s.sessions, k, s.accounts.clock, [], cfg.refreshTtl);
    DeadStaysOver(LogoutCall(s, k), s.sessions[k].family, calls, cfg);
    if b.Token? && b.subject.Named? && b.session.Named? && b.session.id != s.sessions[k].family {
      SameStanding(s.sessions, LogoutCall(s, k).sessions, b.subject.id, b.session.id, s.accounts.clock);
    }
  }

  /** A family none of whose rows changed stands as before. */
  lemma SameStanding(s: R.Sessions, t: R.Sessions, u: Id, f: Id, now: Time)
    requires |s| == |t| && forall i :: 0 <= i < |s| && s[i].user == u && s[i].family == f ==> t[i] == s[i]
    requires forall i :: 0 <= i < |s| ==> s[i].user == t[i].user && s[i].family == t[i].family
    ensures R.HasActiveFamily(s, u, f, now) == R.HasActiveFamily(t, u, f, now)
  {
    if R.HasActiveFamily(s, u, f, now) {
      var i :| 0 <= i < |s| && R.ActiveRow(s[i], u, f, now);
      assert R.ActiveRow(t[i], u, f, now);
    }
    if R.HasActiveFamily(t, u, f, now) {
      var i :| 0 <= i < |t| && R.ActiveRow(t[i], u, f, now);
      assert R.ActiveRow(s[i], u, f, now);
    }
  }

  /** Presenting a refresh token that was already revoked ends its session at every later state. */
  lemma ReuseEndsSession(s: Service, k: nat, calls: seq<Call>, cfg: Settings)
    requires Sound(s, cfg) && k < |s.sessions| && s.sessions[k].revokedAt.Some?
    ensures RefreshCall(s, k, cfg).1 == Failure(Unauthorized)
    ensures Over(Run(RefreshCall(s, k, cfg).0, calls, cfg), s.sessions[k].family, cfg)
  {
    R.ReuseEndsFamily(s.sessions, k, Accepted(s, s.sessions[k].user), s.accounts.clock, [], cfg.refreshTtl);
    DeadStaysOver(RefreshCall(s, k, cfg).0, s.sessions[k].family, calls, cfg);
  }

  /** A password reset ends, at every later state, every session its user had, and touches nobody else's. */
  lemma ResetEndsSessions(s: Service, k: nat, password: string, j: nat, calls: seq<Call>, cfg: Settings)
    requires Sound(s, cfg) && ResetCall(s, k, password).1.None?
    requires j < |s.sessions| && s.sessions[j].user == s.resets[k].user
    ensures Over(Run(ResetCall(s, k, password).0, calls, cfg), s.sessions[j].family, cfg)
  {
    var t := ResetCall(s, k, password).0;
    R.RevokingAllEndsFamilies(s.sessions, s.resets[k].user, j, t.accounts.clock, [], cfg.refreshTtl);
    DeadStaysOver(t, s.sessions[j].family, calls, cfg);
  }

  lemma ResetLeavesOthers(s: Service, k: nat, password: string, b: Bearer)
    requires ResetCall(s, k, password).1.None?
    requires b.Token? && b.subject.Named? && b.subject.id != s.resets[k].user
    ensures CurrentUser(ResetCall(s, k, password).0, b) == CurrentUser(s, b)
  {
    if b.session.Named? {
      SameStanding(s.sessions, ResetCall(s, k, password).0.sessions, b.subject.id, b.session.id, s.accounts.clock);
    }
  }

  /** A password reset leaves its user no active reset token, and the tokens there were never work again. */
  lemma ResetSpendsTokens(s: Service, k: nat, password: string, calls: seq<Call>, cfg: Settings, i: nat, now: Time)
    requires Sound(s, cfg) && ResetCall(s, k, password).1.None?
    requires i < |s.resets| && s.resets[i].user == s.resets[k].user
    ensures !P.Active(Run(ResetCall(s, k, password).0, calls, cfg).resets, i, now)
    ensures forall n :: 0 <= n < |ResetCall(s, k, password).0.resets| && s.resets[n].user == s.resets[k].user ==>
      !P.Active(ResetCall(s, k, password).0.resets, n, now)
  {
    var t := ResetCall(s, k, password).0;
    P.SpendKeepsOneUnused(s.resets, k, t.accounts.clock);
    RunOnlySpends(t, calls, cfg);
  }

  /** A requested reset token is the user's only live one; within its lifetime it sets the password, which alone then
      works. */
  lemma ForgottenCanBeReset(s: Service, email: string, password: string, tried: string, i: nat, cfg: Settings, at: Time)
    requires Sound(s, cfg) && UserByEmail(s.accounts, email).Some? && Accepted(s, UserByEmail(s.accounts, email).value)
    requires s.accounts.clock <= at < s.accounts.clock + cfg.resetTtl
    ensures var u, k := UserByEmail(s.accounts, email).value, |s.resets|;
      var t := ForgotCall(s, email, cfg).(accounts := s.accounts.(clock := at));
      && (i < |t.resets| && t.resets[i].user == u && P.Active(t.resets, i, at) ==> i == k)
      && ResetCall(t, k, password).1.None?
      && Login(ResetCall(t, k, password).0.accounts, email, tried) == if tried == password then Success(u)
        else Failure(Unauthorized)
  {
    var u := UserByEmail(s.accounts, email).value;
    var a := s.accounts.(clock := at);
    LaterStillValid(s.accounts, s.accounts.next, at, cfg.maxAttempts);
    hide Sound, Valid, Login;
    NewPasswordOnly(a, u, "", password, cfg.maxAttempts);
  }

  /** A fresh sign-in is honoured at once, and until its access or its refresh lifetime is over, whichever is first. */
  lemma SignInIsHonoured(s: Service, u: Id, cfg: Settings, at: Time)
    requires Sound(s, cfg) && Accepted(s, u) && at >= s.accounts.clock
    ensures var (t, answer) := SignIn(s, Success(u), cfg);
      && answer.Success?
      && (CurrentUser(t.(accounts := t.accounts.(clock := at)), AsBearer(answer.value.access)) == Success(u)
          <==> at < Floored(s.accounts.clock + cfg.accessTtl) && at < s.accounts.clock + cfg.refreshTtl)
  {
    R.IssuedIsActive(s.sessions, u, s.accounts.clock, cfg.refreshTtl, at, u, |s.sessions|);
  }

  /** A rotation carries the session on: tokens naming it are honoured on the successor's lifetime, others as before. */
  lemma RefreshCarriesOn(s: Service, k: nat, cfg: Settings, b: Bearer, at: Time)
    requires Sound(s, cfg) && RefreshCall(s, k, cfg).1.Success?
    requires b.Token? && b.isAccess && b.subject.Named? && b.session.Named? && b.expiresAt > at
    ensures k < |s.sessions|
    ensures var t := RefreshCall(s, k, cfg).0.(accounts := s.accounts.(clock := at));
      CurrentUser(t, b).Success? <==>
        if b.session.id == s.sessions[k].family
        then b.subject.id == s.sessions[k].user && at < s.accounts.clock + cfg.refreshTtl
        else CurrentUser(s.(accounts := s.accounts.(clock := at)), b).Success?
  {
    var accepted := Accepted(s, s.sessions[k].user);
    assert R.Refresh(s.sessions, k, accepted, s.accounts.clock, cfg.refreshTtl).1.Success?;
    R.RefreshedIsActive(s.sessions, k, s.accounts.clock, cfg.refreshTtl, at, b.subject.id, b.session.id);
  }
}
