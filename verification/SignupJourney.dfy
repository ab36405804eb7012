/** A signup from its start to the account: who may start one, how long it stays open, and whose account it makes. */
module SignupJourney {
  import opened Common
  import opened SignupOtp
  import opened Accounts
  import opened AccountInvariants
  import opened AccountSteps
  import opened AccountLaws
  import opened ServiceCalls
  import opened ServiceRuns
  import SignupProgress

  // ----- who may start

  /** A user in the tables, not deleted, has the email or the phone. */
  ghost predicate Taken(s: Accounts, email: string, phone: Option<string>) {
    exists u :: u in s.users && s.users[u].deletedAt.None? && HasAddress(s.users[u], email, phone)
  }

  predicate HasAddress(user: User, email: string, phone: Option<string>) {
    user.email == email || (phone.Some? && user.phone == phone)
  }

  /** A session that a new signup with these addresses meets: one that holds one of them and has not lapsed, or that
      holds both. */
  ghost predicate InTheWay(s: Accounts, id: Id, email: string, phone: Option<string>) {
    && id in s.pending
    && var p := s.pending[id];
       var open := p.completedUser.Some? || s.clock < p.expiresAt;
       if phone.Some? && p.phone == phone then open || p.email == email else open && p.email == email
  }

  /** At most one session is met, and it is one of this flow that has not made its user yet. */
  ghost predicate MayPrepare(s: Accounts, email: string, phone: Option<string>, kind: Kind) {
    && (forall id :: InTheWay(s, id, email, phone) ==>
          s.pending[id].completedUser.None? && s.pending[id].kind == kind)
    && (forall i, j :: InTheWay(s, i, email, phone) && InTheWay(s, j, email, phone) ==> i == j)
  }

  /** Nothing but the codes of lapsed sessions is lost when a call is refused. */
  predicate OnlyCodesLost(s: Accounts, t: Accounts) {
    && t == s.(otp := t.otp) && t.otp.rates == s.otp.rates
    && forall slot :: slot in t.otp.codes ==> slot in s.otp.codes && t.otp.codes[slot] == s.otp.codes[slot]
  }

  lemma GatheredAreInTheWay(s: Accounts, email: string, phone: Option<string>)
    requires RowsDistinct(s.pending)
    ensures var h := Gather(s, email, phone);
      && (h.byEmail.Some? ==> h.byEmail.value in s.pending && InTheWay(s, h.byEmail.value, email, phone))
      && (h.byPhone.Some? ==> h.byPhone.value in s.pending && InTheWay(s, h.byPhone.value, email, phone))
      && forall id: Id :: InTheWay(s, id, email, phone) ==> h.byEmail == Some(id) || h.byPhone == Some(id)
  {
    LookupsExact(s, email, phone);
    hide ClearIf, RowsDistinct;
  }

  lemma GatheringClears(s: Accounts, email: string, phone: Option<string>)
    ensures OnlyCodesLost(s, s.(otp := Gather(s, email, phone).otp))
  {
    hide Lapsed, PendingByEmail, PendingByPhone;
  }

  /** The rows in hand rule the signup out. */
  predicate RuledOut(s: Accounts, h: InHand, kind: Kind) {
    || Blocks(s, h.byEmail, kind) || Blocks(s, h.byPhone, kind)
    || (h.byEmail.Some? && h.byPhone.Some? && h.byEmail != h.byPhone)
  }

  lemma PreparesUnlessRuledOut(s: Accounts, email: string, phone: Option<string>, password: PasswordHash, kind: Kind,
      cfg: Settings)
    ensures var ((t, result), h) := (Prepare(s, email, phone, password, kind, cfg), Gather(s, email, phone));
      && (result.Success? <==> !RuledOut(s, h, kind))
      && (result.Failure? ==> result.error == Conflict && t == s.(otp := h.otp))
  {
    hide Gather, Blocks, ClearSession, Reprepared, FreshRow;
  }

  lemma RuledOutExactlyWhen(s: Accounts, email: string, phone: Option<string>, kind: Kind)
    requires RowsDistinct(s.pending)
    ensures RuledOut(s, Gather(s, email, phone), kind) <==> !MayPrepare(s, email, phone, kind)
  {
    GatheredAreInTheWay(s, email, phone);
    hide Gather, InTheWay, RowsDistinct;
  }

  lemma PreparesExactlyWhen(s: Accounts, email: string, phone: Option<string>, password: PasswordHash, kind: Kind,
      cfg: Settings)
    requires RowsDistinct(s.pending)
    ensures var (t, result) := Prepare(s, email, phone, password, kind, cfg);
      && (result.Success? <==> MayPrepare(s, email, phone, kind))
      && (result.Failure? ==> result.error == Conflict && OnlyCodesLost(s, t))
  {
    PreparesUnlessRuledOut(s, email, phone, password, kind, cfg);
    RuledOutExactlyWhen(s, email, phone, kind);
    GatheringClears(s, email, phone);
    hide *;
  }

  /** A candidate signup is refused, and loses nothing but lapsed codes, exactly when a user has the email or the phone
      or an open session of another kind or person is in the way. */
  lemma StartsExactlyWhen(s: Accounts, email: string, phone: string, password: string, cfg: Settings)
    requires RowsDistinct(s.pending)
    ensures var (t, result) := StartSignup(s, email, phone, password, cfg);
      && (result.Success? <==> !Taken(s, email, Some(phone)) && MayPrepare(s, email, Some(phone), Candidate))
      && (result.Failure? ==> result.error == Conflict && OnlyCodesLost(s, t))
  {
    PreparesExactlyWhen(s, email, Some(phone), PasswordHash(password), Candidate, cfg);
    assert Taken(s, email, Some(phone)) <==> UserByEmail(s, email).Some? || UserByPhone(s, phone).Some? by {
      if u :| u in s.users && s.users[u].deletedAt.None? && HasAddress(s.users[u], email, Some(phone)) {
        assert Known(s, u);
      }
    }
    hide Prepare, MayPrepare, UserByEmail, UserByPhone;
  }

  lemma OrganizationStartsExactlyWhen(s: Accounts, email: string, password: string, cfg: Settings)
    requires RowsDistinct(s.pending)
    ensures var (t, result) := StartOrganizationSignup(s, email, password, cfg);
      && (result.Success? <==> !Taken(s, email, None) && MayPrepare(s, email, None, Organization))
      && (result.Failure? ==> result.error == Conflict && OnlyCodesLost(s, t))
  {
    PreparesExactlyWhen(s, email, None, PasswordHash(password), Organization, cfg);
    assert Taken(s, email, None) <==> UserByEmail(s, email).Some? by {
      if u :| u in s.users && s.users[u].deletedAt.None? && s.users[u].email == email {
        assert Known(s, u);
      }
    }
    hide Prepare, MayPrepare, UserByEmail;
  }

  // ----- the session it starts

  /** Nothing has been sent, tried or verified on the channel. */
  predicate Unused(c: ChannelState) {
    c.verifiedAt.None? && c.attempts == 0 && c.sent == 0 && c.lastSent.None?
  }

  /** An open session for exactly this account. */
  predicate AsksFor(p: Pending, email: string, phone: Option<string>, password: string, kind: Kind, expiresAt: Time) {
    && p.email == email && p.phone == phone && p.password == Some(PasswordHash(password)) && p.kind == kind
    && p.expiresAt == expiresAt && p.completedUser.None? && Unused(p.emailState) && Unused(p.phoneState)
  }

  lemma FreshAsksFor(s: Accounts, email: string, phone: Option<string>, password: string, kind: Kind, cfg: Settings,
      p: Pending)
    requires p.(oauth := None) == FreshRow(s, email, phone, PasswordHash(password), kind, cfg)
    ensures AsksFor(p, email, phone, password, kind, s.clock + cfg.pendingTtl)
  {
  }

  /** A signup that starts leaves a session that asks for the given account. */
  lemma StartAsksFor(s: Accounts, email: string, phone: string, password: string, cfg: Settings, m: nat)
    requires Valid(s, m) && StartSignup(s, email, phone, password, cfg).1.Success?
    requires !StaleBothWays(s, email, Some(phone))
    ensures var (t, id) := StartSignup(s, email, phone, password, cfg);
      && id.value in t.pending
      && AsksFor(t.pending[id.value], email, Some(phone), password, Candidate, s.clock + cfg.pendingTtl)
  {
    PreparedRow(s, email, Some(phone), PasswordHash(password), Candidate, cfg, m);
    hide Prepare, FreshRow, AsksFor, Valid, StaleBothWays;
    var (t, id) := StartSignup(s, email, phone, password, cfg);
    FreshAsksFor(s, email, Some(phone), password, Candidate, cfg, t.pending[id.value]);
  }

  lemma OrganizationStartAsksFor(s: Accounts, email: string, password: string, cfg: Settings, m: nat)
    requires Valid(s, m) && StartOrganizationSignup(s, email, password, cfg).1.Success?
    ensures var (t, id) := StartOrganizationSignup(s, email, password, cfg);
      && id.value in t.pending
      && AsksFor(t.pending[id.value], email, None, password, Organization, s.clock + cfg.pendingTtl)
  {
    PreparedRow(s, email, None, PasswordHash(password), Organization, cfg, m);
    hide Prepare, FreshRow, AsksFor, Valid;
    var (t, id) := StartOrganizationSignup(s, email, password, cfg);
    FreshAsksFor(s, email, None, password, Organization, cfg, t.pending[id.value]);
  }

  /** An unverified session takes part in the signup until it expires, and from then on in nothing. */
  lemma OpenExactlyUntil(s: Accounts, id: Id, cfg: Settings, at: Time, code: string, via: string,
      answer: ProviderAnswer)
    requires id in s.pending && s.pending[id].completedUser.None? && s.pending[id].emailState.verifiedAt.None?
    ensures var (t, kind) := (Later(s, at), s.pending[id].kind);
      var sending, completing := SendChannel(t, id, kind, Email, false, code, Some(via), cfg), Complete(t, id, kind);
      && (at < s.pending[id].expiresAt ==>
            (sending.1.None? || sending.1.value.RateLimited?) && completing == (t, Failure(Conflict)))
      && (at >= s.pending[id].expiresAt ==>
            && sending.1 == Some(Unauthorized) && completing.1 == Failure(Unauthorized)
            && VerifyChannel(t, id, kind, Email, code, answer, cfg).1 == Some(Unauthorized))
  {
    hide CountSend, Accepts, RetryAfter, Sent, StoreCode, ClearSession;
  }

  /** Any call about an expired session that has not made its user drops the session with its codes, and is refused. */
  lemma ExpiredIsDropped(s: Accounts, id: Id, kind: Kind, resend: bool, code: string, dispatched: Option<string>,
      answer: ProviderAnswer, phone: string, cfg: Settings)
    requires id in s.pending && s.pending[id].completedUser.None? && s.pending[id].expiresAt <= s.clock
    ensures var t := s.(pending := s.pending - {id}, otp := ClearSession(s.otp, id));
      && SendChannel(s, id, kind, Email, resend, code, dispatched, cfg) == (t, Some(Unauthorized))
      && VerifyChannel(s, id, kind, Email, code, answer, cfg) == (t, Some(Unauthorized))
      && SetGooglePhone(s, id, phone) == (t, Some(Unauthorized))
      && Complete(s, id, kind) == (t, Failure(Unauthorized))
  {
    hide ClearSession;
  }

  /** A session that has made its user signs that user in again, however late, for as long as the user is not deleted;
      nothing changes. */
  lemma CompletedSignsInAgain(s: Accounts, id: Id, kind: Kind)
    requires id in s.pending && s.pending[id].completedUser.Some?
    ensures var u := s.pending[id].completedUser.value;
      Complete(s, id, kind) ==
        (s, if s.pending[id].kind == kind && u in s.users && s.users[u].deletedAt.None? then Success(u)
            else Failure(Conflict))
  {
  }

  // ----- the account it makes

  /** The session still asks for the account it was started for. */
  lemma StillAsksFor(s: Service, calls: seq<Call>, cfg: Settings, id: Id)
    requires Sound(s, cfg) && id in s.accounts.pending
    requires id in Run(s, calls, cfg).accounts.pending
    requires Preparations(Run(s, calls, cfg).accounts, id) == Preparations(s.accounts, id)
    ensures SignupProgress.SameAccount(s.accounts.pending[id], Run(s, calls, cfg).accounts.pending[id])
    ensures Run(s, calls, cfg).accounts.pending[id].kind == s.accounts.pending[id].kind
  {
    RunProgresses(s, calls, cfg);
    KindNeverChanges(s, calls, cfg, id);
    hide Run;
    assert SignupProgress.SessionFollows(s.accounts, Run(s, calls, cfg).accounts, id, cfg.maxAttempts);
  }

  /** An account in good standing with this email and, where one was asked for, this phone, that signs in with this
      password and with no other. */
  ghost predicate AccountMade(s: Accounts, u: Id, email: string, phone: Option<string>, password: string) {
    && u in s.users && s.users[u].email == email && s.users[u].phone == phone
    && s.users[u].active && s.users[u].deletedAt.None? && s.users[u].emailVerifiedAt.Some?
    && SignsInOnlyWith(s, u, email, password)
  }

  lemma CompletionMakes(s: Accounts, id: Id, kind: Kind, password: string, m: nat)
    requires Valid(s, m) && id in s.pending && s.pending[id].completedUser.None?
    requires s.pending[id].password == Some(PasswordHash(password))
    requires Complete(s, id, kind).1 == Success(s.next)
    ensures AccountMade(Complete(s, id, kind).0, s.next, s.pending[id].email, s.pending[id].phone, password)
    ensures var (user, p) := (Complete(s, id, kind).0.users[s.next], s.pending[id]);
      && user.emailVerifiedAt == p.emailState.verifiedAt
      && user.phoneVerifiedAt == if kind == Candidate then p.phoneState.verifiedAt else None
  {
    forall tried
      ensures Login(Complete(s, id, kind).0, s.pending[id].email, tried) ==
        if tried == password then Success(s.next) else Failure(Unauthorized)
    {
      CompletedCanLogin(s, id, kind, tried, m);
    }
    assert UsersBelow(s.users, s.next);
    hide Valid, Complete, Login;
    CreatedUser(s, id, kind);
    CreatedIsUsable(s, id);
  }

  lemma CreatedIsUsable(s: Accounts, id: Id)
    requires id in s.pending && s.pending[id].emailState.verifiedAt.Some?
    ensures var (t, p) := (UserCreated(s, id), s.pending[id]);
      && s.next in t.users && t.users[s.next].email == p.email && t.users[s.next].phone == p.phone
      && t.users[s.next].active && t.users[s.next].deletedAt.None?
      && t.users[s.next].emailVerifiedAt == p.emailState.verifiedAt
      && t.users[s.next].phoneVerifiedAt == if p.kind == Candidate then p.phoneState.verifiedAt else None
  {
    hide ClearSession;
  }

  /** Whatever happens between the start of a signup and its completion, short of starting it anew: the account it makes
      has the email, the phone and the password given at the start, and signs in with that password and no other. A
      session that came from a provider may have been given another phone. */
  lemma StartToAccount(s: Service, email: string, phone: string, password: string, id: Id, s1: Service,
      calls: seq<Call>, t: Service, cfg: Settings)
    requires Sound(s, cfg) && !StaleBothWays(s.accounts, email, Some(phone))
    requires StartSignup(s.accounts, email, phone, password, cfg) == (s1.accounts, Success(id))
    requires s1 == Serve(s, StartingSignup(email, phone, password), cfg) && t == Run(s1, calls, cfg)
    requires Preparations(t.accounts, id) == Preparations(s1.accounts, id)
    requires id in t.accounts.pending && t.accounts.pending[id].completedUser.None?
    requires Complete(t.accounts, id, Candidate).1 == Success(t.accounts.next)
    ensures AccountMade(Complete(t.accounts, id, Candidate).0, t.accounts.next, email, t.accounts.pending[id].phone,
      password)
    ensures id in s1.accounts.pending
    ensures s1.accounts.pending[id].oauth.None? ==> t.accounts.pending[id].phone == Some(phone)
  {
    StartAsksFor(s.accounts, email, phone, password, cfg, cfg.maxAttempts);
    StepKeepsSound(s, StartingSignup(email, phone, password), cfg);
    RunKeepsSound(s1, calls, cfg);
    hide Run, Serve, StartSignup, Complete, Valid, AccountMade, StaleBothWays;
    StillAsksFor(s1, calls, cfg, id);
    CompletionMakes(t.accounts, id, Candidate, password, cfg.maxAttempts);
  }

  lemma OrganizationStartToAccount(s: Service, email: string, password: string, id: Id, s1: Service,
      calls: seq<Call>, t: Service, cfg: Settings)
    requires Sound(s, cfg)
    requires StartOrganizationSignup(s.accounts, email, password, cfg) == (s1.accounts, Success(id))
    requires s1 == Serve(s, StartingOrganizationSignup(email, password), cfg) && t == Run(s1, calls, cfg)
    requires Preparations(t.accounts, id) == Preparations(s1.accounts, id)
    requires id in t.accounts.pending && t.accounts.pending[id].completedUser.None?
    requires Complete(t.accounts, id, Organization).1 == Success(t.accounts.next)
    ensures AccountMade(Complete(t.accounts, id, Organization).0, t.accounts.next, email, t.accounts.pending[id].phone,
      password)
    ensures id in s1.accounts.pending
    ensures s1.accounts.pending[id].oauth.None? ==> t.accounts.pending[id].phone.None?
  {
    OrganizationStartAsksFor(s.accounts, email, password, cfg, cfg.maxAttempts);
    StepKeepsSound(s, StartingOrganizationSignup(email, password), cfg);
    RunKeepsSound(s1, calls, cfg);
    hide Run, Serve, StartOrganizationSignup, Complete, Valid, AccountMade;
    StillAsksFor(s1, calls, cfg, id);
    CompletionMakes(t.accounts, id, Organization, password, cfg.maxAttempts);
  }

  // ----- when completion makes it

  /** Both addresses verified, as far as the flow asks for them. */
  predicate Verified(p: Pending) {
    p.emailState.verifiedAt.Some? && (p.kind == Candidate ==> p.phoneState.verifiedAt.Some?)
  }

  /** A user row, deleted or not, has one of the session's addresses. */
  ghost predicate AddressUsed(s: Accounts, p: Pending) {
    exists u :: u in s.users && HasAddress(s.users[u], p.email, p.phone)
  }

  /** An open session makes a new user exactly when its addresses are verified and unused and its provider account, if
      any, is not linked yet; one that did not come from a provider falls back on the user who has its email, if that
      user has its phone too; otherwise nothing changes. */
  lemma CompletesExactlyWhen(s: Accounts, id: Id, kind: Kind, m: nat)
    requires Valid(s, m) && id in s.pending && s.pending[id].completedUser.None? && s.clock < s.pending[id].expiresAt
    ensures var (t, result) := Complete(s, id, kind);
      var p := s.pending[id];
      && (result == Success(s.next) <==>
            && p.kind == kind && Verified(p) && !AddressUsed(s, p)
            && (p.oauth.Some? ==> SocialKey(p.oauth.value.provider, p.oauth.value.account) !in s.social))
      && (forall u :: u in s.users ==>
            (result == Success(u) <==>
               && p.kind == kind && Verified(p) && p.oauth.None?
               && s.users[u].deletedAt.None? && s.users[u].email == p.email
               && (p.phone.Some? ==> s.users[u].phone == p.phone)))
      && (result.Failure? ==> t == s)
  {
    assert UsersDistinct(s.users) && UsersBelow(s.users, s.next);
    hide Valid, RowsDistinct;
    var p := s.pending[id];
    assert AddressUsed(s, p) <==> UserClash(s, p.email, p.phone);
    var existing := ExistingAccount(s, p);
    forall u | u in s.users && s.users[u].deletedAt.None? && s.users[u].email == p.email
      ensures existing == Some(u) && UserClash(s, p.email, p.phone)
    {
      assert Known(s, u);
      UserLookupExact(s, u);
    }
    ExistingKnown(s, p);
    hide UserClash, ExistingAccount, Adopted, UserCreated, AddressUsed, UsersDistinct;
  }
}
