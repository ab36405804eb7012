/** The pairs of tokens the service hands out: what each of them is good for, for whom, and until when. */
module HandedTokens {
  import opened Common
  import opened SignupOtp
  import opened Accounts
  import opened AccountInvariants
  import opened AccountSteps
  import opened AccountLaws
  import opened ServiceCalls
  import opened ServiceRuns
  import SessionEnds
  import Redis
  import R = RefreshSessions

  /** The same service at another moment. */
  function At(s: Service, now: Time): Service {
    s.(accounts := s.accounts.(clock := now))
  }

  /** An expiry is cut to the whole second below. */
  lemma CutToTheSecond(t: Time)
    ensures Floored(t) <= t < Floored(t) + Redis.SECOND && Floored(t) % Redis.SECOND == 0
  {
  }

  /** Handed out at `from`, the access token is honoured as `u` until the access or the refresh lifetime is over, and
      the refresh token refreshes until the refresh lifetime is. */
  ghost predicate WorkFor(t: Service, tokens: Tokens, u: Id, from: Time, cfg: Settings) {
    forall at :: from <= at ==>
      && (CurrentUser(At(t, at), AsBearer(tokens.access)) ==
            if at < Floored(from + cfg.accessTtl) && at < from + cfg.refreshTtl then Success(u)
            else Failure(Unauthorized))
      && (RefreshCall(At(t, at), tokens.refresh, cfg).1.Success? <==> at < from + cfg.refreshTtl)
  }

  /** The newest token of a family decides for the whole family. */
  lemma NewestDecides(t: Service, k: nat, u: Id, expires: Time, tokens: Tokens, from: Time, cfg: Settings)
    requires Accepted(t, u) && k < |t.sessions| && t.sessions[k].user == u && t.sessions[k].revokedAt.None?
    requires t.sessions[k].expiresAt == from + cfg.refreshTtl && tokens.refresh == k
    requires tokens.access == AccessToken(u, t.sessions[k].family, Floored(from + cfg.accessTtl))
    requires forall at :: R.HasActiveFamily(t.sessions, u, t.sessions[k].family, at) <==> at < from + cfg.refreshTtl
    ensures WorkFor(t, tokens, u, from, cfg)
  {
    hide R.HasActiveFamily, R.Rotate, Usable;
    forall at | from <= at
      ensures CurrentUser(At(t, at), AsBearer(tokens.access)) ==
        if at < Floored(from + cfg.accessTtl) && at < from + cfg.refreshTtl then Success(u) else Failure(Unauthorized)
      ensures RefreshCall(At(t, at), tokens.refresh, cfg).1.Success? <==> at < from + cfg.refreshTtl
    {
      assert R.HasActiveFamily(t.sessions, u, t.sessions[k].family, at) <==> at < from + cfg.refreshTtl;
      assert Accepted(At(t, at), u) by {
        UsableAnyTime(t, u, at);
      }
    }
  }

  lemma UsableAnyTime(t: Service, u: Id, at: Time)
    ensures Accepted(At(t, at), u) == Accepted(t, u)
  {
  }

  /** A sign-in hands out tokens that work for its user. */
  lemma SignInTokensWork(s: Service, u: Id, cfg: Settings)
    requires Sound(s, cfg) && Accepted(s, u)
    ensures var (t, answer) := SignIn(s, Success(u), cfg);
      answer.Success? && WorkFor(t, answer.value, u, s.accounts.clock, cfg)
  {
    var (t, tokens) := IssueTokens(s, u, cfg);
    var k := |s.sessions|;
    forall at
      ensures R.HasActiveFamily(t.sessions, u, k, at) <==> at < s.accounts.clock + cfg.refreshTtl
    {
      R.IssuedIsActive(s.sessions, u, s.accounts.clock, cfg.refreshTtl, at, u, k);
    }
    hide R.HasActiveFamily, Sound;
    NewestDecides(t, k, u, s.accounts.clock + cfg.refreshTtl, tokens, s.accounts.clock, cfg);
  }

  /** When a refresh token can be used; one that cannot, and was never used, is refused without effect. */
  lemma RefreshesExactlyWhen(s: Service, k: nat, cfg: Settings)
    ensures RefreshCall(s, k, cfg).1.Success? <==>
      && k < |s.sessions| && s.sessions[k].revokedAt.None? && s.accounts.clock < s.sessions[k].expiresAt
      && var u := s.sessions[k].user;
         u in s.accounts.users && s.accounts.users[u].active && s.accounts.users[u].deletedAt.None?
         && s.accounts.users[u].emailVerifiedAt.Some?
    ensures RefreshCall(s, k, cfg).1.Failure? && (k < |s.sessions| ==> s.sessions[k].revokedAt.None?) ==>
      RefreshCall(s, k, cfg) == (s, Failure(Unauthorized))
  {
    hide R.Rotate, R.RevokeFamily;
  }

  /** Logging out revokes a live token and has no other effect; an unknown or revoked token is none of its business. */
  lemma LogsOutExactly(s: Service, k: nat)
    ensures var t := LogoutCall(s, k);
      && t == s.(sessions := t.sessions) && |t.sessions| == |s.sessions|
      && (forall i :: 0 <= i < |s.sessions| && i != k ==> t.sessions[i] == s.sessions[i])
      && (k < |s.sessions| ==>
            t.sessions[k] == if s.sessions[k].revokedAt.Some? then s.sessions[k]
              else s.sessions[k].(revokedAt := Some(s.accounts.clock)))
  {
  }

  /** A refresh hands out tokens that work for the owner of the one presented; that one is used up, and presenting it
      again is refused at any time and ends the session for good. */
  lemma RefreshedTokensWork(s: Service, k: nat, cfg: Settings, at: Time, calls: seq<Call>)
    requires Sound(s, cfg) && RefreshCall(s, k, cfg).1.Success?
    ensures k < |s.sessions|
    ensures var (t, answer) := RefreshCall(s, k, cfg);
      && WorkFor(t, answer.value, s.sessions[k].user, s.accounts.clock, cfg)
      && RefreshCall(At(t, at), k, cfg).1 == Failure(Unauthorized)
      && SessionEnds.Over(Run(RefreshCall(At(t, at), k, cfg).0, calls, cfg), s.sessions[k].family, cfg)
  {
    RefreshesExactlyWhen(s, k, cfg);
    var u, f, now := s.sessions[k].user, s.sessions[k].family, s.accounts.clock;
    var (t, answer) := RefreshCall(s, k, cfg);
    R.RotatingKeeps(s.sessions, k, now, cfg.refreshTtl);
    RotationIs(s, k, cfg);
    forall moment
      ensures R.HasActiveFamily(t.sessions, u, f, moment) <==> moment < now + cfg.refreshTtl
    {
      R.RefreshedIsActive(s.sessions, k, now, cfg.refreshTtl, moment, u, f);
    }
    hide R.HasActiveFamily, R.Refresh, R.Rotate, RefreshCall, Sound, SessionEnds.Over, R.WellFormed, Run;
    NewestDecides(t, |s.sessions|, u, now + cfg.refreshTtl, answer.value, now, cfg);
    ReuseIsOver(At(t, at), k, cfg, calls);
  }

  lemma RotationIs(s: Service, k: nat, cfg: Settings)
    requires RefreshCall(s, k, cfg).1.Success?
    ensures k < |s.sessions|
    ensures var (t, answer) := RefreshCall(s, k, cfg);
      && R.Refresh(s.sessions, k, true, s.accounts.clock, cfg.refreshTtl) == (t.sessions, Success(answer.value.refresh))
      && t.sessions == R.Rotate(s.sessions, k, s.accounts.clock, cfg.refreshTtl) && t.accounts == s.accounts
      && |t.sessions| == |s.sessions| + 1 && t.sessions[k].revokedAt.Some?
      && t.sessions[k].family == s.sessions[k].family
      && var n := |s.sessions|;
         t.sessions[n].user == s.sessions[k].user && t.sessions[n].family == s.sessions[k].family
         && t.sessions[n].revokedAt.None? && t.sessions[n].expiresAt == s.accounts.clock + cfg.refreshTtl
         && answer.value.refresh == n
         && answer.value.access ==
              AccessToken(s.sessions[k].user, s.sessions[k].family, Floored(s.accounts.clock + cfg.accessTtl))
  {
  }

  lemma ReuseIsOver(s: Service, k: nat, cfg: Settings, calls: seq<Call>)
    requires R.WellFormed(s.sessions) && k < |s.sessions| && s.sessions[k].revokedAt.Some?
    ensures RefreshCall(s, k, cfg).1 == Failure(Unauthorized)
    ensures SessionEnds.Over(Run(RefreshCall(s, k, cfg).0, calls, cfg), s.sessions[k].family, cfg)
  {
    R.ReuseEndsFamily(s.sessions, k, Accepted(s, s.sessions[k].user), s.accounts.clock, [], cfg.refreshTtl);
    SessionEnds.DeadStaysOver(RefreshCall(s, k, cfg).0, s.sessions[k].family, calls, cfg);
  }

  // ----- the calls that sign someone in

  /** The right password of a usable, verified user hands out tokens that work for that user; any other password hands
      out nothing and changes nothing. */
  lemma PasswordHandsOut(s: Service, u: Id, password: string, cfg: Settings)
    requires Sound(s, cfg) && Accepted(s, u)
    ensures var (t, answer) := LoginCall(s, s.accounts.users[u].email, password, cfg);
      if s.accounts.users[u].password == Some(PasswordHash(password)) then
        answer.Success? && WorkFor(t, answer.value, u, s.accounts.clock, cfg)
      else answer == Failure(Unauthorized) && t == s
  {
    PasswordDecidesLogin(s.accounts, u, password);
    SignInTokensWork(s, u, cfg);
    hide Login, WorkFor;
  }

  /** Whoever completion settles on, the tokens work for that user as soon as the user is accepted at all. */
  lemma CompletionHandsOut(s: Service, id: Id, kind: Kind, cfg: Settings)
    requires Sound(s, cfg) && Complete(s.accounts, id, kind).1.Success?
    requires var (a, u) := Complete(s.accounts, id, kind); Accepted(s.(accounts := a), u.value)
    ensures var (t, answer) := CompleteCall(s, id, kind, cfg);
      answer.Success?
      && WorkFor(t, answer.value, Complete(s.accounts, id, kind).1.value, Complete(s.accounts, id, kind).0.clock, cfg)
  {
    var (a, u) := Complete(s.accounts, id, kind);
    CompleteKeeps(s.accounts, id, kind, cfg.maxAttempts);
    hide Complete, WorkFor, Valid;
    SignInTokensWork(s.(accounts := a), u.value, cfg);
  }

  lemma ProviderHandsOut(s: Service, provider: string, account: string, email: string, cfg: Settings)
    requires Sound(s, cfg) && OAuthCallback(s.accounts, provider, account, email).1.Success?
    requires var (a, u) := OAuthCallback(s.accounts, provider, account, email); Accepted(s.(accounts := a), u.value)
    ensures var (t, answer) := OAuthCall(s, provider, account, email, cfg);
      answer.Success?
      && WorkFor(t, answer.value, OAuthCallback(s.accounts, provider, account, email).1.value,
           OAuthCallback(s.accounts, provider, account, email).0.clock, cfg)
  {
    var (a, u) := OAuthCallback(s.accounts, provider, account, email);
    OAuthCallbackKeeps(s.accounts, provider, account, email, cfg.maxAttempts);
    hide OAuthCallback, WorkFor, Valid;
    SignInTokensWork(s.(accounts := a), u.value, cfg);
  }

  /** Google's callback hands out tokens exactly when it signs someone in, and they work for that user once verified. */
  lemma GoogleHandsOut(s: Service, account: string, email: string, cfg: Settings)
    requires Sound(s, cfg)
    ensures var (t, answer) := GoogleCall(s, account, email, cfg);
      var result := GoogleCallback(s.accounts, account, email, cfg).1;
      && (answer.Tokenized? <==> result.SignedIn?)
      && (answer.Redirected? ==> answer.result == result && t.sessions == s.sessions)
      && (result.SignedIn? && Accepted(s, result.user) ==>
            WorkFor(t, answer.tokens, result.user, s.accounts.clock, cfg))
  {
    GoogleSignsInOnly(s.accounts, account, email, cfg);
    var result := GoogleCallback(s.accounts, account, email, cfg).1;
    hide GoogleCallback, WorkFor, Valid;
    if result.SignedIn? && Accepted(s, result.user) {
      SignInTokensWork(s, result.user, cfg);
    }
  }

  lemma GoogleSignsInOnly(s: Accounts, account: string, email: string, cfg: Settings)
    ensures GoogleCallback(s, account, email, cfg).1.SignedIn? ==> GoogleCallback(s, account, email, cfg).0 == s
  {
    hide UserByEmail, PendingByEmail;
  }
}
