/** Who is let in and who is not: the guard, the sign-ins, and users who were disabled or deleted. */
module Standing {
  import opened Common
  import opened SignupOtp
  import opened Accounts
  import opened AccountInvariants
  import opened AccountSteps
  import opened AccountLaws
  import opened ServiceCalls
  import opened ServiceRuns
  import Redis
  import R = RefreshSessions
  import P = PasswordResets

  // ----- exactly when

  /** The user is there, enabled, not deleted, and has a verified email. */
  predicate GoodStanding(s: Accounts, u: Id) {
    && u in s.users && s.users[u].active && s.users[u].deletedAt.None? && s.users[u].emailVerifiedAt.Some?
  }

  /** The guard lets a token in exactly when it is a live access token for a user in good standing and a session of that
      user with a live refresh token. */
  lemma GuardLetsInExactly(s: Service, b: Bearer, u: Id)
    ensures CurrentUser(s, b) == Success(u) <==>
      && b.Token? && b.isAccess && s.accounts.clock < b.expiresAt && b.subject == Named(u) && b.session.Named?
      && GoodStanding(s.accounts, u)
      && exists i :: 0 <= i < |s.sessions| && s.sessions[i].user == u && s.sessions[i].family == b.session.id
           && s.sessions[i].revokedAt.None? && s.accounts.clock < s.sessions[i].expiresAt
    ensures CurrentUser(s, b).Failure? ==> CurrentUser(s, b).error == Unauthorized
  {
    if b.Token? && b.session.Named? {
      forall i | 0 <= i < |s.sessions| && s.sessions[i].user == u && s.sessions[i].family == b.session.id
        && s.sessions[i].revokedAt.None? && s.accounts.clock < s.sessions[i].expiresAt
        ensures R.HasActiveFamily(s.sessions, u, b.session.id, s.accounts.clock)
      {
        assert R.ActiveRow(s.sessions[i], u, b.session.id, s.accounts.clock);
      }
    }
  }

  /** A password signs in exactly the user in good standing who has the email and that password; a right password of an
      unverified or disabled user is told so. */
  lemma PasswordLetsInExactly(s: Accounts, email: string, password: string, u: Id)
    requires UsersDistinct(s.users)
    ensures Login(s, email, password) == Success(u) <==>
      GoodStanding(s, u) && s.users[u].email == email && s.users[u].password == Some(PasswordHash(password))
    ensures Login(s, email, password) == Failure(Forbidden) <==>
      exists v :: v in s.users && s.users[v].deletedAt.None? && s.users[v].email == email
        && s.users[v].password == Some(PasswordHash(password)) && !GoodStanding(s, v)
    ensures Login(s, email, password).Failure? ==> Login(s, email, password).error in {Unauthorized, Forbidden}
  {
    forall v | v in s.users && s.users[v].deletedAt.None? && s.users[v].email == email
      ensures UserByEmail(s, email) == Some(v)
    {
      assert Known(s, v);
      UserLookupExact(s, v);
    }
    hide UsersDistinct;
  }

  /** What Google's callback comes to. */
  lemma GoogleLetsInExactly(s: Accounts, account: string, email: string, cfg: Settings)
    requires RowsDistinct(s.pending) && UsersDistinct(s.users)
    ensures var (key, result) := (SocialKey("google", account), GoogleCallback(s, account, email, cfg).1);
      var taken := exists u :: u in s.users && s.users[u].deletedAt.None? && s.users[u].email == email;
      && (forall u :: result == SignedIn(u) <==>
            key in s.social && s.social[key] == u
            && u in s.users && s.users[u].active && s.users[u].deletedAt.None?)
      && (result == AuthFailed <==> key in s.social && !result.SignedIn?)
      && (result == LinkingRequired <==> key !in s.social && taken)
      && (result == Raised <==>
            key !in s.social && !taken
            && exists id :: id in s.pending && s.pending[id].email == email && s.clock < s.pending[id].expiresAt
                 && s.pending[id].oauth != Some(OAuth("google", account)))
      && (forall id :: id in s.pending && s.pending[id].email == email && s.clock < s.pending[id].expiresAt ==>
            (result == PhoneRequired(id) <==>
               key !in s.social && !taken && s.pending[id].oauth == Some(OAuth("google", account))))
  {
    LookupsExact(s, email, None);
    var taken := exists u :: u in s.users && s.users[u].deletedAt.None? && s.users[u].email == email;
    assert taken <==> UserByEmail(s, email).Some? by {
      if u :| u in s.users && s.users[u].deletedAt.None? && s.users[u].email == email {
        assert Known(s, u);
      }
    }
    hide UserByEmail, RowsDistinct, UsersDistinct;
    assert PendingByEmail(s, email).Some? ==>
      PendingByEmail(s, email).value in s.pending && s.pending[PendingByEmail(s, email).value].email == email;
    hide PendingByEmail, GooglePending;
  }

  predicate GoogleSession(p: Pending, account: string, email: string, now: Time, expiresAt: Time) {
    && p.email == email && p.phone.None? && p.password.None? && p.kind == Candidate && p.completedUser.None?
    && p.oauth == Some(OAuth("google", account)) && p.expiresAt == expiresAt
    && p.emailState.verifiedAt == Some(now) && p.emailState.attempts == 0 && p.emailState.lastSent.None?
    && p.phoneState.verifiedAt.None? && p.phoneState.attempts == 0 && p.phoneState.lastSent.None?
  }

  /** A new Google signup: an open session for this provider account, its email verified, its phone and password still
      to come; a lapsed session of the same email is gone, every other is as it was. */
  lemma GoogleStarts(s: Accounts, account: string, email: string, cfg: Settings, m: nat)
    requires Valid(s, m) && GoogleCallback(s, account, email, cfg).1 == PhoneRequired(s.next)
    ensures var t := GoogleCallback(s, account, email, cfg).0;
      && s.next !in s.pending && s.next in t.pending
      && GoogleSession(t.pending[s.next], account, email, s.clock, s.clock + cfg.pendingTtl)
      && (forall id :: id in t.pending && id != s.next ==> id in s.pending && t.pending[id] == s.pending[id])
      && (forall id :: id in s.pending && id !in t.pending ==>
            s.pending[id].email == email && s.pending[id].expiresAt <= s.clock)
      && t.users == s.users && t.social == s.social && t.otp == s.otp
  {
    assert s.next !in s.pending && forall id :: id in s.pending ==> id != s.next;
    hide Valid, UserByEmail;
  }

  /** What another provider's callback comes to: a linked account signs its user in; */
  lemma LinkedLetsInExactly(s: Accounts, provider: string, account: string, email: string)
    requires LinksExist(s.social, s.users) && SocialKey(provider, account) in s.social
    ensures var u := s.social[SocialKey(provider, account)];
      u in s.users
      && OAuthCallback(s, provider, account, email) ==
           (s, if s.users[u].active && s.users[u].deletedAt.None? then Success(u) else Failure(Forbidden))
  {
  }

  /** ... an account not linked yet is linked to the enabled user who has its email, unless that user already has one
      with the provider, and vouches for the email; */
  lemma EmailIsLinkedExactly(s: Accounts, provider: string, account: string, email: string, u: Id)
    requires UsersDistinct(s.users) && SocialKey(provider, account) !in s.social
    requires u in s.users && s.users[u].email == email && s.users[u].deletedAt.None?
    ensures var (t, result) := OAuthCallback(s, provider, account, email);
      && (Linked(s, u, provider) ==> (t, result) == (s, Failure(IntegrityViolation)))
      && (!Linked(s, u, provider) && !s.users[u].active ==> (t, result) == (s, Failure(Forbidden)))
      && (!Linked(s, u, provider) && s.users[u].active ==>
            && result == Success(u) && t == s.(users := t.users, social := s.social[SocialKey(provider, account) := u])
            && u in t.users && t.users == s.users[u := t.users[u]] && GoodStanding(t, u)
            && t.users[u] == s.users[u].(emailVerifiedAt := t.users[u].emailVerifiedAt)
            && (s.users[u].emailVerifiedAt.Some? ==> t.users[u] == s.users[u]))
  {
    assert Known(s, u);
    UserLookupExact(s, u);
    hide UsersDistinct, UserByEmail;
  }

  /** ... and where nobody has the email, a user is made who can sign in through the provider only. */
  lemma NewcomerIsMade(s: Accounts, provider: string, account: string, email: string)
    requires UsersBelow(s.users, s.next) && SocialKey(provider, account) !in s.social
    requires forall u :: u in s.users ==> s.users[u].email != email
    ensures var (t, result) := OAuthCallback(s, provider, account, email);
      && result == Success(s.next) && s.next !in s.users && s.next in t.users
      && t == s.(users := s.users[s.next := t.users[s.next]], next := s.next + 1,
                 social := s.social[SocialKey(provider, account) := s.next])
      && t.users[s.next].email == email && t.users[s.next].phone.None? && t.users[s.next].password.None?
      && GoodStanding(t, s.next)
  {
  }

  // ----- users who were disabled or deleted

  predicate Barred(s: Accounts, u: Id) {
    u in s.users && (!s.users[u].active || s.users[u].deletedAt.Some?)
  }

  /** No token is honoured as this user, no refresh token of this user works, no password, provider or reset token lets
      the user in, and no reset token is made. */
  ghost predicate LockedOut(s: Service, u: Id, cfg: Settings) {
    && (forall b :: CurrentUser(s, b) != Success(u))
    && (forall k: nat :: k < |s.sessions| && s.sessions[k].user == u ==> RefreshCall(s, k, cfg).1.Failure?)
    && (forall email, password :: Login(s.accounts, email, password) != Success(u))
    && (forall provider, account, email :: OAuthCallback(s.accounts, provider, account, email).1 != Success(u))
    && (forall account, email :: GoogleCallback(s.accounts, account, email, cfg).1 != SignedIn(u))
    && (forall k: nat, password :: k < |s.resets| && s.resets[k].user == u ==> ResetCall(s, k, password).1.Some?)
    && (forall email :: UserByEmail(s.accounts, email) == Some(u) ==> ForgotCall(s, email, cfg) == s)
  }

  lemma BarredIsLockedOut(s: Service, u: Id, cfg: Settings)
    requires Barred(s.accounts, u) && UsersBelow(s.accounts.users, s.accounts.next)
    ensures LockedOut(s, u, cfg)
  {
    assert !Usable(s.accounts, u) && !Accepted(s, u) && u != s.accounts.next;
    forall b: Bearer
      ensures CurrentUser(s, b) != Success(u)
    {
    }
    forall provider, account, email
      ensures OAuthCallback(s.accounts, provider, account, email).1 != Success(u)
    {
      hide UserClash, Linked, EmailConfirmed;
    }
    forall account, email
      ensures GoogleCallback(s.accounts, account, email, cfg).1 != SignedIn(u)
    {
      hide UserByEmail, PendingByEmail;
    }
    forall email, password
      ensures Login(s.accounts, email, password) != Success(u)
    {
    }
    hide CurrentUser, OAuthCallback, GoogleCallback, Login, R.HasActiveFamily, R.Rotate, R.RevokeFamily, UserByEmail;
  }

  /** Users are not readmitted: whoever was barred still is. */
  ghost predicate NobodyReadmitted(s: Accounts, t: Accounts) {
    forall u :: Barred(s, u) ==> Barred(t, u)
  }

  lemma SessionCallsReadmitNobody(s: Accounts, resets: P.Resets, call: Call, cfg: Settings)
    requires ChangesSessions(call) && !call.Completing?
    ensures AccountsAfter(s, resets, call, cfg).users == s.users
  {
    hide Load, Gather, Reprepared, FreshRow, ClearSession, Blocks, SendCode, CheckCode, UserByEmail, UserByPhone,
      PendingByEmail, PendingByPhone, StateOf, WaitBeforeResend, Expired;
    match call
    case StartingSignup(email, phone, password) => PrepareKeepsUsers(s, email, Some(phone), password, Candidate, cfg);
    case StartingOrganizationSignup(email, password) => PrepareKeepsUsers(s, email, None, password, Organization, cfg);
    case SendingCode(id, kind, ch, resend, code, dispatched) =>
      LoadKeepsUsers(s, id, false);
      if id in s.pending {
        SendKeepsUsers(s, id, ch, code, dispatched, cfg);
      }
    case VerifyingCode(id, kind, ch, code, answer) =>
      LoadKeepsUsers(s, id, false);
      if id in s.pending {
        CheckKeepsUsers(s, id, ch, code, answer, cfg);
      }
    case SettingGooglePhone(id, phone) => LoadKeepsUsers(s, id, false);
    case CallingBackGoogle(account, email) =>
  }

  lemma PrepareKeepsUsers(s: Accounts, email: string, phone: Option<string>, password: string, kind: Kind,
      cfg: Settings)
    ensures Prepare(s, email, phone, PasswordHash(password), kind, cfg).0.users == s.users
  {
    hide Gather, FreshRow, ClearSession, Blocks;
  }

  lemma LoadKeepsUsers(s: Accounts, id: Id, allowCompleted: bool)
    ensures Load(s, id, allowCompleted).0.users == s.users && Load(s, id, allowCompleted).0.next == s.next
    ensures Load(s, id, allowCompleted).1.None? ==> Load(s, id, allowCompleted).0 == s && id in s.pending
  {
  }

  lemma SendKeepsUsers(s: Accounts, id: Id, ch: Channel, code: string, dispatched: Option<string>, cfg: Settings)
    requires id in s.pending
    ensures SendCode(s, id, ch, code, dispatched, cfg).0.users == s.users
  {
    hide CountSend, Accepts, RetryAfter, Sent, StoreCode, Address, StateOf, Redis.SetEx;
  }

  lemma CheckKeepsUsers(s: Accounts, id: Id, ch: Channel, code: string, answer: ProviderAnswer, cfg: Settings)
    requires id in s.pending
    ensures CheckCode(s, id, ch, code, answer, cfg).0.users == s.users
  {
    assert Failed(s, id, ch).users == s.users && Stamped(s, id, ch).users == s.users;
    assert Failed(s, id, Phone).users == s.users && Stamped(s, id, Phone).users == s.users;
    hide WellShaped, VerifyCode, ClearSlot, Address, StateOf, Failed, Stamped, Redis.Get;
  }

  lemma CompletionReadmitsNobody(s: Accounts, id: Id, kind: Kind, u: Id)
    requires u in s.users && u != s.next
    ensures u in Complete(s, id, kind).0.users && Complete(s, id, kind).0.users[u] == s.users[u]
  {
    LoadKeepsUsers(s, id, true);
    hide Load, UserClash, ExistingAccount, ClearSession, NewUser;
  }

  lemma ProviderReadmitsNobody(s: Accounts, provider: string, account: string, email: string, u: Id)
    requires u in s.users && u != s.next
    ensures var t := OAuthCallback(s, provider, account, email).0;
      u in t.users && t.users[u].active == s.users[u].active && t.users[u].deletedAt == s.users[u].deletedAt
  {
    hide UserByEmail, UserClash, Linked, Usable;
  }

  lemma AdministrationReadmitsNobody(s: Accounts, resets: P.Resets, call: Call, cfg: Settings, u: Id)
    requires Barred(s, u) && !ChangesSessions(call) && !call.CallingBackOAuth?
    requires call == SettingActive(u, true) ==> s.users[u].deletedAt.Some?
    ensures Barred(AccountsAfter(s, resets, call, cfg), u)
    ensures s.users[u].deletedAt.Some? ==> AccountsAfter(s, resets, call, cfg).users[u].deletedAt.Some?
  {
    hide Linked, P.Active, LinksOf, Known, Usable;
  }

  lemma CallReadmitsNobody(s: Accounts, resets: P.Resets, call: Call, cfg: Settings, u: Id)
    requires Barred(s, u) && UsersBelow(s.users, s.next)
    requires call == SettingActive(u, true) ==> s.users[u].deletedAt.Some?
    ensures Barred(AccountsAfter(s, resets, call, cfg), u)
    ensures s.users[u].deletedAt.Some? ==> AccountsAfter(s, resets, call, cfg).users[u].deletedAt.Some?
  {
    assert u != s.next;
    if !ChangesSessions(call) && !call.CallingBackOAuth? {
      AdministrationReadmitsNobody(s, resets, call, cfg, u);
      hide AccountsAfter;
      return;
    }
    hide Complete, OAuthCallback;
    if ChangesSessions(call) && !call.Completing? {
      SessionCallsReadmitNobody(s, resets, call, cfg);
      hide AccountsAfter;
    } else if call.Completing? {
      CompletionReadmitsNobody(s, call.session, call.kind, u);
    } else if call.CallingBackOAuth? {
      ProviderReadmitsNobody(s, call.provider, call.account, call.email, u);
    }
  }

  lemma {:induction false} BarredForGood(s: Service, u: Id, calls: seq<Call>, cfg: Settings)
    requires Sound(s, cfg) && Barred(s.accounts, u)
    requires s.accounts.users[u].deletedAt.Some? || SettingActive(u, true) !in calls
    ensures Barred(Run(s, calls, cfg).accounts, u)
    decreases |calls|
  {
    if calls != [] {
      var t := Serve(s, calls[0], cfg);
      assert UsersBelow(s.accounts.users, s.accounts.next);
      AccountsFollow(s, calls[0], cfg);
      CallReadmitsNobody(s.accounts, s.resets, calls[0], cfg, u);
      StepKeepsSound(s, calls[0], cfg);
      hide Sound, Serve, AccountsAfter;
      BarredForGood(t, u, calls[1..], cfg);
    }
  }

  /** Once disabled or deleted a user stays locked out over every run, until enabled again; a deleted one for good. */
  lemma BarredStaysOut(s: Service, u: Id, calls: seq<Call>, cfg: Settings)
    requires Sound(s, cfg) && Barred(s.accounts, u)
    requires s.accounts.users[u].deletedAt.Some? || SettingActive(u, true) !in calls
    ensures LockedOut(Run(s, calls, cfg), u, cfg)
  {
    BarredForGood(s, u, calls, cfg);
    RunKeepsSound(s, calls, cfg);
    assert UsersBelow(Run(s, calls, cfg).accounts.users, Run(s, calls, cfg).accounts.next);
    hide Run, Sound, Valid;
    BarredIsLockedOut(Run(s, calls, cfg), u, cfg);
  }

  /** Disabling and deleting bar the user and nobody else. */
  lemma BarringIsAimed(s: Accounts, u: Id, v: Id)
    requires u in s.users
    ensures Barred(SetActive(s, u, false), u) && Barred(SoftDelete(s, u), u)
    ensures v != u ==> Barred(SetActive(s, u, false), v) == Barred(s, v) && Barred(SoftDelete(s, u), v) == Barred(s, v)
    ensures s.users[u].active && s.users[u].deletedAt.None? ==> SetActive(SetActive(s, u, false), u, true) == s
  {
    assert s.users[u].active ==> s.users[u := s.users[u]] == s.users;
  }
}
