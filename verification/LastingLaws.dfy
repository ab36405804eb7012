/** What one call establishes and no later run of calls takes away. */
module LastingLaws {
  import opened Common
  import opened SignupOtp
  import opened Accounts
  import opened AccountInvariants
  import opened AccountLaws
  import opened ServiceCalls
  import opened ServiceRuns
  import P = PasswordResets
  import SignupProgress

  // ----- the two signup flows

  /** The other flow gets nothing out of the session: no code sent, no channel stamped, no user, and no row rewritten;
      while the session is open, each call is a conflict. */
  ghost predicate Unserved(t: Accounts, id: Id, kind: Kind, cfg: Settings) {
    var open := id in t.pending && !Expired(t, id);
    && (forall ch, resend, code, sent ::
          Refused(t, open && (ch == Phone ==> cfg.phoneEnabled), SendChannel(t, id, kind, ch, resend, code, sent, cfg)))
    && (forall ch, code, answer ::
          Refused(t, open && (ch == Phone ==> cfg.phoneEnabled), VerifyChannel(t, id, kind, ch, code, answer, cfg)))
    && Complete(t, id, kind).1.Failure? && AtMostDropped(t, Complete(t, id, kind).0)
    && (open ==> Complete(t, id, kind) == (t, Failure(Conflict)))
  }

  ghost predicate Refused(t: Accounts, conflict: bool, outcome: (Accounts, Option<Error>)) {
    outcome.1.Some? && AtMostDropped(t, outcome.0) && (conflict ==> outcome == (t, Some(Conflict)))
  }

  /** Nothing happened, except that an expired row and its codes may be gone. */
  ghost predicate AtMostDropped(t: Accounts, v: Accounts) {
    v == t || exists id :: Dropped(t, v, id)
  }

  predicate Dropped(t: Accounts, v: Accounts, id: Id) {
    id in t.pending && Expired(t, id) && v == t.(otp := ClearSession(t.otp, id), pending := t.pending - {id})
  }

  lemma OtherFlowRefused(t: Accounts, id: Id, kind: Kind, cfg: Settings)
    requires id in t.pending ==> t.pending[id].kind != kind
    ensures Unserved(t, id, kind, cfg)
  {
    LoadDropsAtMost(t, id, false);
    LoadDropsAtMost(t, id, true);
    hide ClearSession, AtMostDropped, SendCode, CheckCode, ExistingAccount, UserClash, UserCreated, Adopted;
  }

  lemma LoadDropsAtMost(t: Accounts, id: Id, allowCompleted: bool)
    ensures var (v, error) := Load(t, id, allowCompleted);
      AtMostDropped(t, v) && AtMostDropped(t, t) && (error.None? ==> id in v.pending && v == t)
  {
    var (v, error) := Load(t, id, allowCompleted);
    assert v != t ==> Dropped(t, v, id);
  }

  /** A session belongs to the flow that started it: over every run no call of the other flow is ever served with it. */
  lemma OtherFlowNeverServed(s: Service, calls: seq<Call>, cfg: Settings, id: Id, kind: Kind)
    requires Sound(s, cfg) && id in s.accounts.tracks && s.accounts.tracks[id].kind != kind
    ensures Unserved(Run(s, calls, cfg).accounts, id, kind, cfg)
  {
    var t := Run(s, calls, cfg).accounts;
    RunKeepsSound(s, calls, cfg);
    RunProgresses(s, calls, cfg);
    assert SignupProgress.SessionFollows(s.accounts, t, id, cfg.maxAttempts);
    if id in t.pending {
      assert RowFine(t.pending[id], t.tracks[id], t.clock, cfg.maxAttempts);
    }
    hide *;
    OtherFlowRefused(t, id, kind, cfg);
  }

  // ----- provider links

  ghost predicate HasLink(s: Accounts, key: SocialKey, u: Id) {
    key in s.social && s.social[key] == u
  }

  /** Links may be added, none is taken away or given to another user. */
  ghost predicate LinksKept(s: Accounts, t: Accounts) {
    forall key :: key in s.social ==> HasLink(t, key, s.social[key])
  }

  lemma PreparingKeepsLinks(s: Accounts, email: string, phone: Option<string>, password: PasswordHash, kind: Kind,
      cfg: Settings)
    ensures Prepare(s, email, phone, password, kind, cfg).0.social == s.social
  {
    hide Gather, FreshRow, ClearSession, Blocks;
  }

  lemma LoadingKeepsLinks(s: Accounts, id: Id)
    ensures Load(s, id, false).0.social == s.social
      && (Load(s, id, false).1.None? ==> id in s.pending && Load(s, id, false).0 == s)
  {
  }

  lemma SendingKeepsLinks(s: Accounts, id: Id, ch: Channel, code: string, dispatched: Option<string>, cfg: Settings)
    requires id in s.pending
    ensures SendCode(s, id, ch, code, dispatched, cfg).0.social == s.social
  {
    hide CountSend, Accepts, RetryAfter, Sent, StoreCode, Address, StateOf, Redis.SetEx;
  }

  lemma CheckingKeepsLinks(s: Accounts, id: Id, ch: Channel, code: string, answer: ProviderAnswer, cfg: Settings)
    requires id in s.pending
    ensures CheckCode(s, id, ch, code, answer, cfg).0.social == s.social
  {
    assert Failed(s, id, ch).social == s.social && Stamped(s, id, ch).social == s.social;
    assert Failed(s, id, Phone).social == s.social && Stamped(s, id, Phone).social == s.social;
    hide WellShaped, VerifyCode, ClearSlot, Address, StateOf, Failed, Stamped, Redis.Get;
  }

  lemma GoogleKeepsLinks(s: Accounts, id: Id, phone: string, account: string, email: string, cfg: Settings)
    ensures SetGooglePhone(s, id, phone).0.social == s.social
      && GoogleCallback(s, account, email, cfg).0.social == s.social
  {
    LoadingKeepsLinks(s, id);
    hide Load, UserByEmail, UserByPhone, PendingByEmail, PendingByPhone, Expired;
  }

  lemma SessionCallsKeepLinks(s: Accounts, resets: P.Resets, call: Call, cfg: Settings)
    requires ChangesSessions(call) && !call.Completing?
    ensures AccountsAfter(s, resets, call, cfg).social == s.social
  {
    hide Load, Prepare, SendCode, CheckCode, SetGooglePhone, GoogleCallback, UserByEmail, UserByPhone, StateOf,
      WaitBeforeResend;
    match call
    case StartingSignup(email, phone, password) => PreparingKeepsLinks(s, email, Some(phone), PasswordHash(password),
      Candidate, cfg);
    case StartingOrganizationSignup(email, password) => PreparingKeepsLinks(s, email, None, PasswordHash(password),
      Organization, cfg);
    case SendingCode(id, kind, ch, resend, code, dispatched) =>
      LoadingKeepsLinks(s, id);
      if id in s.pending {
        SendingKeepsLinks(s, id, ch, code, dispatched, cfg);
      }
    case VerifyingCode(id, kind, ch, code, answer) =>
      LoadingKeepsLinks(s, id);
      if id in s.pending {
        CheckingKeepsLinks(s, id, ch, code, answer, cfg);
      }
    case SettingGooglePhone(id, phone) => GoogleKeepsLinks(s, id, phone, "", "", cfg);
    case CallingBackGoogle(account, email) => GoogleKeepsLinks(s, 0, "", account, email, cfg);
  }

  lemma CompletingKeepsLinks(s: Accounts, id: Id, kind: Kind)
    ensures LinksKept(s, Complete(s, id, kind).0)
  {
    hide UserClash, ExistingAccount, NewUser, ClearSession;
  }

  lemma OAuthKeepsLinks(s: Accounts, provider: string, account: string, email: string)
    ensures LinksKept(s, OAuthCallback(s, provider, account, email).0)
  {
    hide UserClash, UserByEmail, EmailConfirmed, Linked, Usable;
  }

  /** Only unlinking that provider of that user ends a link. */
  lemma CallKeepsLink(s: Accounts, resets: P.Resets, call: Call, cfg: Settings, key: SocialKey, u: Id)
    requires HasLink(s, key, u) && call != UnlinkingProvider(u, key.provider)
    ensures HasLink(AccountsAfter(s, resets, call, cfg), key, u)
  {
    if ChangesSessions(call) && !call.Completing? {
      SessionCallsKeepLinks(s, resets, call, cfg);
      hide AccountsAfter;
    } else {
      hide Complete, OAuthCallback, Linked, Known;
      match call
      case Completing(id, kind) => CompletingKeepsLinks(s, id, kind);
      case CallingBackOAuth(provider, account, email) => OAuthKeepsLinks(s, provider, account, email);
      case _ =>
    }
  }

  lemma {:induction false} LinkLasts(s: Service, calls: seq<Call>, cfg: Settings, key: SocialKey, u: Id)
    requires HasLink(s.accounts, key, u) && UnlinkingProvider(u, key.provider) !in calls
    ensures HasLink(Run(s, calls, cfg).accounts, key, u)
    decreases |calls|
  {
    hide Serve, AccountsAfter, HasLink;
    if calls != [] {
      AccountsFollow(s, calls[0], cfg);
      CallKeepsLink(s.accounts, s.resets, calls[0], cfg, key, u);
      LinkLasts(Serve(s, calls[0], cfg), calls[1..], cfg, key, u);
    }
  }

  /** Once linked, and until that provider is unlinked, the provider account signs in that user and nobody else,
      whatever email it reports and whatever else happened in between; a user disabled or deleted meanwhile is
      refused. */
  lemma LinkedSignsInAfter(s: Service, u: Id, provider: string, account: string, calls: seq<Call>, email: string,
      cfg: Settings)
    requires LinkProvider(s.accounts, u, provider, Some(account)).1.None?
    requires UnlinkingProvider(u, provider) !in calls
    ensures var t := Run(Serve(s, LinkingProvider(u, provider, Some(account)), cfg), calls, cfg).accounts;
      OAuthCallback(t, provider, account, email) == (t, if Usable(t, u) then Success(u) else Failure(Forbidden))
  {
    var s1 := Serve(s, LinkingProvider(u, provider, Some(account)), cfg);
    assert HasLink(s1.accounts, SocialKey(provider, account), u);
    hide Serve, Run;
    LinkLasts(s1, calls, cfg, SocialKey(provider, account), u);
    hide UserByEmail, UserClash;
  }
}
