/** What holds over every serial run of service calls. */
module ServiceRuns {
  import opened Common
  import opened SignupOtp
  import opened Accounts
  import opened AccountInvariants
  import opened AccountLaws
  import opened AccountSteps
  import opened SignupProgress
  import opened ServiceCalls
  import R = RefreshSessions
  import P = PasswordResets

  ghost predicate Sound(s: Service, cfg: Settings) {
    Valid(s.accounts, cfg.maxAttempts) && R.WellFormed(s.sessions) && P.OneUnused(s.resets)
  }

  function Empty(clock: Time): Service {
    Service(Accounts(map[], map[], map[], OtpKeys(map[], map[], map[]), 0, clock, map[], map[], map[]), [], [])
  }

  lemma EmptyIsSound(clock: Time, cfg: Settings)
    ensures Sound(Empty(clock), cfg)
  {
  }

  // ----- one call

  lemma AccountsFollow(s: Service, call: Call, cfg: Settings)
    ensures Serve(s, call, cfg).accounts == AccountsAfter(s.accounts, s.resets, call, cfg)
  {
    hide StartSignup, StartOrganizationSignup, SendChannel, VerifyChannel;
    hide SetGooglePhone, Complete, GoogleCallback, OAuthCallback;
    hide SetPassword, ChangePassword, LinkProvider, UnlinkProvider, SetActive, SoftDelete, Login, UserByEmail;
  }

  lemma AccountsStayValid(s: Accounts, resets: P.Resets, call: Call, cfg: Settings)
    requires Valid(s, cfg.maxAttempts)
    ensures Valid(AccountsAfter(s, resets, call, cfg), cfg.maxAttempts)
  {
    hide Valid, Prepare, UserByEmail, UserByPhone, SendChannel;
    hide VerifyChannel, SetGooglePhone, Complete, GoogleCallback, OAuthCallback;
    hide LinkProvider, UnlinkProvider, SetActive, SoftDelete, WithPassword;
    var m := cfg.maxAttempts;
    match call
    case StartingSignup(email, phone, password) => PrepareKeeps(s, email, Some(phone), PasswordHash(password),
      Candidate, cfg, m);
    case StartingOrganizationSignup(email, password) => PrepareKeeps(s, email, None, PasswordHash(password),
      Organization, cfg, m);
    case SendingCode(id, kind, ch, resend, code, dispatched) => SendChannelKeeps(s, id, kind, ch, resend, code,
      dispatched, cfg, m);
    case VerifyingCode(id, kind, ch, code, answer) => VerifyChannelKeeps(s, id, kind, ch, code, answer, cfg);
    case SettingGooglePhone(id, phone) => SetGooglePhoneKeeps(s, id, phone, m);
    case Completing(id, kind) => CompleteKeeps(s, id, kind, m);
    case ResettingPassword(k, password) =>
      if P.Active(resets, k, s.clock) && Usable(s, resets[k].user) {
        WithPasswordKeeps(s, resets[k].user, password, m);
      }
    case CallingBackGoogle(account, email) => GoogleCallbackKeeps(s, account, email, cfg, m);
    case CallingBackOAuth(provider, account, email) => OAuthCallbackKeeps(s, provider, account, email, m);
    case SettingPassword(u, password) =>
      if Known(s, u) {
        WithPasswordKeeps(s, u, password, m);
      }
    case ChangingPassword(u, current, password) =>
      if Known(s, u) {
        WithPasswordKeeps(s, u, password, m);
      }
    case LinkingProvider(u, provider, profile) => LinkProviderKeeps(s, u, provider, profile, m);
    case UnlinkingProvider(u, provider) => UnlinkProviderKeeps(s, u, provider, m);
    case SettingActive(u, active) => SetActiveKeeps(s, u, active, m);
    case MarkingDeleted(u) => SoftDeleteKeeps(s, u, m);
    case Waiting(seconds) => LaterStillValid(s, s.next, s.clock + seconds, m);
    case _ =>
  }

  predicate ChangesSessions(call: Call) {
    || call.StartingSignup? || call.StartingOrganizationSignup? || call.SendingCode? || call.VerifyingCode?
    || call.SettingGooglePhone? || call.Completing? || call.CallingBackGoogle?
  }

  /** The other calls leave the signup sessions and their codes alone. */
  ghost predicate SessionsUntouched(s: Accounts, t: Accounts) {
    t.pending == s.pending && t.tracks == s.tracks && t.otp == s.otp && t.issuedTo == s.issuedTo
  }

  lemma OAuthLeavesSessions(s: Accounts, provider: string, account: string, email: string)
    ensures SessionsUntouched(s, OAuthCallback(s, provider, account, email).0)
  {
    hide UserClash, UserByEmail, EmailConfirmed, Linked, Usable;
  }

  lemma PasswordsLeaveSessions(s: Accounts, u: Id, current: string, password: string)
    ensures SessionsUntouched(s, SetPassword(s, u, password).0)
      && SessionsUntouched(s, ChangePassword(s, u, current, password).0)
    ensures SessionsUntouched(s, ResetPassword(s, u, password).0)
  {
    hide Known, Usable;
  }

  lemma LinksLeaveSessions(s: Accounts, u: Id, provider: string, profile: Option<string>)
    ensures SessionsUntouched(s, LinkProvider(s, u, provider, profile).0)
      && SessionsUntouched(s, UnlinkProvider(s, u, provider).0)
  {
    hide Known, Linked;
  }

  lemma OthersLeaveSessions(s: Accounts, resets: P.Resets, call: Call, cfg: Settings)
    requires !ChangesSessions(call)
    ensures SessionsUntouched(s, AccountsAfter(s, resets, call, cfg))
  {
    hide StartSignup, StartOrganizationSignup, SendChannel, VerifyChannel, SetGooglePhone, Complete, GoogleCallback;
    hide OAuthCallback, SetPassword, ChangePassword, ResetPassword, LinkProvider, UnlinkProvider;
    match call
    case CallingBackOAuth(provider, account, email) => OAuthLeavesSessions(s, provider, account, email);
    case SettingPassword(u, password) => PasswordsLeaveSessions(s, u, "", password);
    case ChangingPassword(u, current, password) => PasswordsLeaveSessions(s, u, current, password);
    case LinkingProvider(u, provider, profile) => LinksLeaveSessions(s, u, provider, profile);
    case UnlinkingProvider(u, provider) => LinksLeaveSessions(s, u, provider, None);
    case ResettingPassword(k, password) =>
      if k < |resets| {
        PasswordsLeaveSessions(s, resets[k].user, "", password);
      }
    case _ =>
  }

  lemma OthersKeepTime(s: Accounts, resets: P.Resets, call: Call, cfg: Settings)
    requires !ChangesSessions(call) && !call.Waiting?
    ensures AccountsAfter(s, resets, call, cfg).clock == s.clock
  {
    hide UserClash, UserByEmail, EmailConfirmed, Known, Usable, Linked, LinksOf;
  }

  lemma AccountsProgress(s: Accounts, resets: P.Resets, call: Call, cfg: Settings)
    requires Valid(s, cfg.maxAttempts)
    ensures Progress(s, AccountsAfter(s, resets, call, cfg), cfg.maxAttempts)
  {
    hide Valid, Progress, Prepare, UserByEmail, UserByPhone, SendChannel;
    hide VerifyChannel, SetGooglePhone, Complete, GoogleCallback, OAuthCallback;
    hide SetPassword, ChangePassword, ResetPassword, LinkProvider, UnlinkProvider, SetActive, SoftDelete;
    var m := cfg.maxAttempts;
    DroppingProgresses(s, s, m);
    match call
    case StartingSignup(email, phone, password) => PrepareProgresses(s, email, Some(phone), PasswordHash(password),
      Candidate, cfg, m);
    case StartingOrganizationSignup(email, password) => PrepareProgresses(s, email, None, PasswordHash(password),
      Organization, cfg, m);
    case SendingCode(id, kind, ch, resend, code, dispatched) => SendChannelProgresses(s, id, kind, ch, resend, code,
      dispatched, cfg, m);
    case VerifyingCode(id, kind, ch, code, answer) => VerifyChannelProgresses(s, id, kind, ch, code, answer, cfg);
    case SettingGooglePhone(id, phone) => SetGooglePhoneProgresses(s, id, phone, m);
    case Completing(id, kind) => CompleteProgresses(s, id, kind, m);
    case CallingBackGoogle(account, email) => GoogleCallbackProgresses(s, account, email, cfg, m);
    case _ =>
      OthersLeaveSessions(s, resets, call, cfg);
      DroppingProgresses(s, AccountsAfter(s, resets, call, cfg), m);
  }

  /** Every call does to the sessions what one of the session operations does. */
  lemma SessionsFollow(s: Service, call: Call, cfg: Settings) returns (step: R.Step)
    ensures Serve(s, call, cfg).sessions == R.Apply(s.sessions, step, cfg.refreshTtl)
  {
    hide R.Issue, R.Refresh, R.Logout, R.RevokeAllForUser, R.RevokeAllExceptFamily;
    hide AccountsAfter, Complete, GoogleCallback, OAuthCallback;
    hide Login, UserByEmail, ResetPassword;
    var now := s.accounts.clock;
    step := R.Nothing;
    match call
    case Completing(id, kind) =>
      var (a, user) := Complete(s.accounts, id, kind);
      CompleteKeepsTime(s.accounts, id, kind);
      step := if user.Success? then R.Issued(user.value, now) else R.Nothing;
    case LoggingIn(email, password) =>
      var user := Login(s.accounts, email, password);
      step := if user.Success? then R.Issued(user.value, now) else R.Nothing;
    case CallingBackGoogle(account, email) =>
      var (a, result) := GoogleCallback(s.accounts, account, email, cfg);
      GoogleKeepsTime(s.accounts, account, email, cfg);
      step := if result.SignedIn? then R.Issued(result.user, now) else R.Nothing;
    case CallingBackOAuth(provider, account, email) =>
      var (a, user) := OAuthCallback(s.accounts, provider, account, email);
      OAuthKeepsTime(s.accounts, provider, account, email);
      step := if user.Success? then R.Issued(user.value, now) else R.Nothing;
    case Refreshing(k) =>
      step := R.Refreshed(k, k < |s.sessions| && Accepted(s, s.sessions[k].user), now);
    case LoggingOut(k) => step := R.LoggedOut(k, now);
    case ResettingPassword(k, password) =>
      ResetKeepsTime(s.accounts, if k < |s.resets| then s.resets[k].user else 0, password);
      step := if ResetCall(s, k, password).1.None? then R.AllRevoked(s.resets[k].user, now) else R.Nothing;
    case RevokingAll(u) => step := R.AllRevoked(u, now);
    case RevokingOthers(u, f) => step := R.OthersRevoked(u, f, now);
    case _ =>
  }

  lemma CompleteKeepsTime(s: Accounts, id: Id, kind: Kind)
    ensures Complete(s, id, kind).0.clock == s.clock
  {
    hide ClearSession;
  }

  lemma GoogleKeepsTime(s: Accounts, account: string, email: string, cfg: Settings)
    ensures GoogleCallback(s, account, email, cfg).0.clock == s.clock
  {
  }

  lemma OAuthKeepsTime(s: Accounts, provider: string, account: string, email: string)
    ensures OAuthCallback(s, provider, account, email).0.clock == s.clock
  {
  }

  lemma ResetKeepsTime(s: Accounts, u: Id, password: string)
    ensures ResetPassword(s, u, password).0.clock == s.clock
  {
  }

  lemma ResetsFollow(s: Service, call: Call, cfg: Settings)
    requires P.OneUnused(s.resets)
    ensures P.OneUnused(Serve(s, call, cfg).resets) && P.OnlySpends(s.resets, Serve(s, call, cfg).resets)
  {
    assert P.OnlySpends(s.resets, s.resets);
    hide P.OneUnused, P.OnlySpends, P.Request, P.Spend, AccountsAfter, Complete;
    hide GoogleCallback, OAuthCallback, Login, UserByEmail, ResetPassword;
    match call
    case ForgettingPassword(email) =>
      var u := UserByEmail(s.accounts, email);
      if u.Some? {
        P.RequestKeepsOneUnused(s.resets, u.value, s.accounts.clock, cfg.resetTtl);
      }
    case ResettingPassword(k, password) =>
      if k < |s.resets| {
        ResetKeepsTime(s.accounts, s.resets[k].user, password);
        P.SpendKeepsOneUnused(s.resets, k, s.accounts.clock);
      }
    case _ =>
  }

  lemma StepKeepsSound(s: Service, call: Call, cfg: Settings)
    requires Sound(s, cfg)
    ensures Sound(Serve(s, call, cfg), cfg)
  {
    hide Valid, R.WellFormed, P.OneUnused, P.OnlySpends, Serve, AccountsAfter, R.Apply;
    AccountsFollow(s, call, cfg);
    AccountsStayValid(s.accounts, s.resets, call, cfg);
    var step := SessionsFollow(s, call, cfg);
    R.StepKeepsWellFormed(s.sessions, step, cfg.refreshTtl);
    ResetsFollow(s, call, cfg);
  }

  // ----- every run

  /** Whatever is called, in whatever order, at whatever times: the tables stay sound. */
  lemma {:induction false} RunKeepsSound(s: Service, calls: seq<Call>, cfg: Settings)
    requires Sound(s, cfg)
    ensures Sound(Run(s, calls, cfg), cfg)
    decreases |calls|
  {
    hide Sound, Serve;
    if calls != [] {
      StepKeepsSound(s, calls[0], cfg);
      RunKeepsSound(Serve(s, calls[0], cfg), calls[1..], cfg);
    }
  }

  lemma {:induction false} RunProgresses(s: Service, calls: seq<Call>, cfg: Settings)
    requires Sound(s, cfg)
    ensures Progress(s.accounts, Run(s, calls, cfg).accounts, cfg.maxAttempts)
    decreases |calls|
  {
    assert Valid(s.accounts, cfg.maxAttempts);
    hide Sound, Valid, Serve, Progress, AccountsAfter;
    if calls == [] {
      DroppingProgresses(s.accounts, s.accounts, cfg.maxAttempts);
    } else {
      var t := Serve(s, calls[0], cfg);
      StepKeepsSound(s, calls[0], cfg);
      AccountsFollow(s, calls[0], cfg);
      AccountsProgress(s.accounts, s.resets, calls[0], cfg);
      RunProgresses(t, calls[1..], cfg);
      ProgressIsTransitive(s.accounts, t.accounts, Run(s, calls, cfg).accounts, cfg.maxAttempts);
    }
  }

  /** A run of calls is, for the sessions, a run of session operations. */
  lemma {:induction false} RunFollows(s: Service, calls: seq<Call>, cfg: Settings) returns (steps: seq<R.Step>)
    ensures Run(s, calls, cfg).sessions == R.Run(s.sessions, steps, cfg.refreshTtl)
    decreases |calls|
  {
    hide Serve, R.Apply;
    if calls == [] {
      steps := [];
    } else {
      var step := SessionsFollow(s, calls[0], cfg);
      var rest := RunFollows(Serve(s, calls[0], cfg), calls[1..], cfg);
      steps := [step] + rest;
      assert steps[1..] == rest;
    }
  }

  lemma {:induction false} RunOnlySpends(s: Service, calls: seq<Call>, cfg: Settings)
    requires P.OneUnused(s.resets)
    ensures P.OnlySpends(s.resets, Run(s, calls, cfg).resets)
    decreases |calls|
  {
    hide Serve;
    if calls != [] {
      ResetsFollow(s, calls[0], cfg);
      RunOnlySpends(Serve(s, calls[0], cfg), calls[1..], cfg);
    }
  }

  // ----- signup sessions

  /** A session's signup kind never changes. */
  lemma KindNeverChanges(s: Service, calls: seq<Call>, cfg: Settings, id: Id)
    requires Sound(s, cfg) && id in s.accounts.pending && id in Run(s, calls, cfg).accounts.pending
    ensures Run(s, calls, cfg).accounts.pending[id].kind == s.accounts.pending[id].kind
  {
    hide Run;
    var t := Run(s, calls, cfg);
    RunKeepsSound(s, calls, cfg);
    RunProgresses(s, calls, cfg);
    assert RowFine(t.accounts.pending[id], t.accounts.tracks[id], t.accounts.clock, cfg.maxAttempts);
    assert RowFine(s.accounts.pending[id], s.accounts.tracks[id], s.accounts.clock, cfg.maxAttempts);
    assert SessionFollows(s.accounts, t.accounts, id, cfg.maxAttempts);
  }

  /** A session that has its user keeps that user, for as long as its row exists. */
  lemma CompletionIsFinal(s: Service, calls: seq<Call>, cfg: Settings, id: Id)
    requires Sound(s, cfg) && id in s.accounts.pending && id in Run(s, calls, cfg).accounts.pending
    requires s.accounts.pending[id].completedUser.Some?
    ensures Run(s, calls, cfg).accounts.pending[id].completedUser == s.accounts.pending[id].completedUser
  {
    hide Run;
    RunProgresses(s, calls, cfg);
    assert SessionFollows(s.accounts, Run(s, calls, cfg).accounts, id, cfg.maxAttempts);
  }

  /** Once it has signed in a user, a session can only ever sign in that user again, and creates nobody else. */
  lemma SessionSignsInOneUser(s: Service, id: Id, kind: Kind, calls: seq<Call>, again: Kind, cfg: Settings)
    requires Sound(s, cfg) && CompleteCall(s, id, kind, cfg).1.Success?
    ensures var u := CompleteCall(s, id, kind, cfg).1.value.access.subject;
      var t := Run(CompleteCall(s, id, kind, cfg).0, calls, cfg);
      var (t', later) := CompleteCall(t, id, again, cfg);
      t'.accounts.users == t.accounts.users && (later.Success? ==> later.value.access.subject == u)
  {
    var s1 := CompleteCall(s, id, kind, cfg).0;
    var u := Complete(s.accounts, id, kind).1.value;
    CompletedRow(s.accounts, id, kind);
    assert Serve(s, Completing(id, kind), cfg) == s1;
    hide Serve, Run, Sound, Valid;
    StepKeepsSound(s, Completing(id, kind), cfg);
    var t := Run(s1, calls, cfg);
    if id in t.accounts.pending {
      CompletionIsFinal(s1, calls, cfg, id);
    }
    CompletedAgain(t.accounts, id, again, u);
  }

  lemma CompletedRow(s: Accounts, id: Id, kind: Kind)
    requires Complete(s, id, kind).1.Success?
    ensures id in Complete(s, id, kind).0.pending
    ensures Complete(s, id, kind).0.pending[id].completedUser == Some(Complete(s, id, kind).1.value)
  {
    hide ExistingAccount, ClearSession, NewUser, UserClash;
  }

  lemma CompletedAgain(s: Accounts, id: Id, kind: Kind, u: Id)
    requires id in s.pending ==> s.pending[id].completedUser == Some(u)
    ensures Complete(s, id, kind).0 == s
    ensures Complete(s, id, kind).1.Success? ==> Complete(s, id, kind).1.value == u
  {
  }

  /** A user created from a candidate session was verified on both channels, each after the session's addresses were
      last set; and no other user came from that session. */
  lemma CandidatesAreVerified(clock: Time, calls: seq<Call>, cfg: Settings, u: Id)
    requires u in Run(Empty(clock), calls, cfg).accounts.origins
    ensures var t := Run(Empty(clock), calls, cfg).accounts;
      && u in t.users
      && (t.origins[u].kind == Candidate ==>
            && t.users[u].emailVerifiedAt.Some? && t.origins[u].emailSetAt <= t.users[u].emailVerifiedAt.value
            && t.users[u].phoneVerifiedAt.Some? && t.origins[u].phoneSetAt <= t.users[u].phoneVerifiedAt.value)
      && forall v :: v in t.origins && v != u ==> t.origins[v].session != t.origins[u].session
  {
    hide Run;
    EmptyIsSound(clock, cfg);
    RunKeepsSound(Empty(clock), calls, cfg);
    var t := Run(Empty(clock), calls, cfg).accounts;
    assert OriginsFine(t.origins, t.users, t.next);
  }

  /** A code waiting for a session without an OAuth provider was issued for the session's present address;
      and no channel has recorded more failures than are allowed. */
  lemma CodesGoToTheAddress(clock: Time, calls: seq<Call>, cfg: Settings, id: Id, ch: Channel)
    requires id in Run(Empty(clock), calls, cfg).accounts.pending
    ensures var t := Run(Empty(clock), calls, cfg).accounts;
      && StateOf(t.pending[id], ch).attempts <= cfg.maxAttempts
      && (t.pending[id].oauth.None? && Slot(id, ch) in t.otp.codes ==>
            Slot(id, ch) in t.issuedTo && t.issuedTo[Slot(id, ch)] == Address(t.pending[id], ch))
  {
    hide Run;
    var t := Run(Empty(clock), calls, cfg).accounts;
    EmptyIsSound(clock, cfg);
    RunKeepsSound(Empty(clock), calls, cfg);
    assert RowFine(t.pending[id], t.tracks[id], t.clock, cfg.maxAttempts);
    if t.pending[id].oauth.None? {
      assert CodesMatch(id, t.pending[id], t.otp.codes, t.issuedTo);
    }
  }

  /** How often the session's addresses and counters were set afresh. */
  function Preparations(s: Accounts, id: Id): nat {
    if id in s.tracks then s.tracks[id].preparations else 0
  }

  /** A channel that has used up its attempts stays unverified until its session is prepared anew, whatever happens
      meanwhile. */
  lemma LockedUntilPrepared(s: Service, calls: seq<Call>, cfg: Settings, id: Id, ch: Channel)
    requires Sound(s, cfg) && id in s.accounts.pending && id in Run(s, calls, cfg).accounts.pending
    requires Locked(StateOf(s.accounts.pending[id], ch), cfg.maxAttempts)
    requires Preparations(Run(s, calls, cfg).accounts, id) == Preparations(s.accounts, id)
    ensures Locked(StateOf(Run(s, calls, cfg).accounts.pending[id], ch), cfg.maxAttempts)
  {
    hide Run;
    RunProgresses(s, calls, cfg);
    assert SessionFollows(s.accounts, Run(s, calls, cfg).accounts, id, cfg.maxAttempts);
  }

  /** However accounts were created, linked, unlinked and given passwords, a user in good standing can sign in:
      with some password, or with some provider account, whatever email that provider reports. */
  lemma UsersKeepLogin(clock: Time, calls: seq<Call>, cfg: Settings, u: Id)
    requires Accepted(Run(Empty(clock), calls, cfg), u)
    ensures var t := Run(Empty(clock), calls, cfg).accounts;
      || (exists password :: Login(t, t.users[u].email, password) == Success(u))
      || (exists k :: ProviderSignsIn(t, k, u, cfg))
  {
    hide Run, Valid, Login, ProviderSignsIn;
    EmptyIsSound(clock, cfg);
    RunKeepsSound(Empty(clock), calls, cfg);
    EveryUserCanSignIn(Run(Empty(clock), calls, cfg).accounts, u, cfg, cfg.maxAttempts);
  }
}
