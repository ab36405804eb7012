/** `AuthService` of app/auth/service.py and the guard of app/auth/deps.py, one method per call, over the tables they
    share. */
module Authentication {
  import opened Common
  import opened SignupOtp
  import opened AccountInvariants
  import opened ServiceCalls
  import opened ServiceRuns
  import Redis
  import A = Accounts
  import L = AccountLaws
  import P = PasswordResets
  import R = RefreshSessions
  import Steps = AccountSteps

  /** An effect on the accounts alone. */
  function Of<T>(s: Service, x: (A.Accounts, T)): (Service, T) {
    (s.(accounts := x.0), x.1)
  }

  /** A user's link with a provider is the only one with that provider. */
  lemma OnlyLinkGoes(s: A.Accounts, u: Id, key: A.SocialKey)
    requires LinksDistinct(s.social) && A.Known(s, u) && key in s.social && s.social[key] == u
    ensures A.UnlinkProvider(s, u, key.provider) ==
      if s.users[u].password.None? && |A.LinksOf(s, u)| <= 1 then (s, Some(A.Conflict))
        else (s.(social := s.social - {key}), None)
  {
    assert A.Linked(s, u, key.provider);
    assert (set k | k in A.LinksOf(s, u) && k.provider == key.provider) == {key};
  }

  lemma UnlinkKeepsSound(s: Service, u: Id, provider: string, cfg: A.Settings)
    requires Sound(s, cfg)
    ensures Sound(Of(s, A.UnlinkProvider(s.accounts, u, provider)).0, cfg)
  {
    hide Sound, A.UnlinkProvider;
    StepKeepsSound(s, UnlinkingProvider(u, provider), cfg);
  }

  ghost predicate RowsTracked(rows: map<Id, A.Pending>, tracks: map<Id, A.Track>) {
    forall id :: id in rows ==> id in tracks
  }

  lemma RowsOnly(s: A.Accounts, id: Id)
    requires id in s.pending
    ensures A.Failed(s, id, Phone) == s.(pending := A.Failed(s, id, Phone).pending)
    ensures A.Stamped(s, id, Phone) == s.(pending := A.Stamped(s, id, Phone).pending)
    ensures A.Stamped(s.(otp := ClearSlot(s.otp, Slot(id, Phone))), id, Phone).pending ==
      A.Stamped(s, id, Phone).pending
    ensures A.Stamped(s.(otp := ClearSlot(s.otp, Slot(id, Phone))), id, Phone) ==
              s.(otp := ClearSlot(s.otp, Slot(id, Phone)), pending := A.Stamped(s, id, Phone).pending)
  {
  }

  lemma ClearedAlready(s: A.Accounts, h: A.InHand, email: string, phone: Option<string>,
      password: A.PasswordHash, kind: A.Kind, cfg: A.Settings)
    ensures A.PrepareRow(s.(otp := h.otp), h, email, phone, password, kind, cfg) ==
      A.PrepareRow(s, h, email, phone, password, kind, cfg)
  {
    hide A.Reprepared, ClearSession;
  }

  lemma OAuthKeepsSound(s: Service, provider: string, account: string, email: string, cfg: A.Settings)
    requires Sound(s, cfg)
    ensures Sound(OAuthCall(s, provider, account, email, cfg).0, cfg)
  {
    hide Sound, OAuthCall;
    StepKeepsSound(s, CallingBackOAuth(provider, account, email), cfg);
  }

  lemma CompleteKeepsSound(s: Service, id: Id, kind: A.Kind, cfg: A.Settings)
    requires Sound(s, cfg)
    ensures Sound(CompleteCall(s, id, kind, cfg).0, cfg)
  {
    hide Sound, CompleteCall;
    StepKeepsSound(s, Completing(id, kind), cfg);
  }

  /** The calls that touch nothing but the accounts. */
  lemma AccountsKeepSound(s: Service, call: Call, cfg: A.Settings)
    requires Sound(s, cfg)
    requires call.StartingSignup? || call.StartingOrganizationSignup? || call.SendingCode? || call.VerifyingCode?
      || call.SettingGooglePhone?
    ensures Sound(s.(accounts := AccountsAfter(s.accounts, s.resets, call, cfg)), cfg)
  {
    hide Sound, AccountsAfter;
    StepKeepsSound(s, call, cfg);
  }

  lemma GoogleKeepsSound(s: Service, account: string, email: string, cfg: A.Settings)
    requires Sound(s, cfg)
    ensures Sound(GoogleCall(s, account, email, cfg).0, cfg)
  {
    hide Sound, GoogleCall;
    StepKeepsSound(s, CallingBackGoogle(account, email), cfg);
  }

  lemma GoogleAnswers(s: Service, account: string, email: string, cfg: A.Settings)
    ensures var (s1, result) := Of(s, A.GoogleCallback(s.accounts, account, email, cfg));
      GoogleCall(s, account, email, cfg) ==
        if result.SignedIn? then (IssueTokens(s1, result.user, cfg).0, Tokenized(IssueTokens(s1, result.user, cfg).1))
          else (s1, Redirected(result))
  {
  }

  class AuthService {
    const cfg: A.Settings
    var users: map<Id, A.User>
    var pending: map<Id, A.Pending>
    var social: map<A.SocialKey, Id>
    var otp: OtpKeys
    var sessions: R.Sessions
    var resets: P.Resets
    var next: Id
    var clock: A.Time
    ghost var tracks: map<Id, A.Track>
    ghost var origins: map<Id, A.Origin>
    ghost var issuedTo: map<Slot, string>

    ghost function Tables(): A.Accounts
      reads this
    {
      A.Accounts(users, pending, social, otp, next, clock, tracks, origins, issuedTo)
    }

    ghost function State(): Service
      reads this
    {
      Service(Tables(), sessions, resets)
    }

    ghost predicate Valid()
      reads this
    {
      Sound(State(), cfg)
    }

    constructor (cfg: A.Settings, now: A.Time)
      ensures this.cfg == cfg && State() == Empty(now) && Valid()
    {
      this.cfg, clock, next := cfg, now, 0;
      users, pending, social, otp := map[], map[], map[], OtpKeys(map[], map[], map[]);
      sessions, resets := [], [];
      tracks, origins, issuedTo := map[], map[], map[];
      new;
      EmptyIsSound(now, cfg);
    }

    method Wait(seconds: nat)
      requires Valid()
      modifies this`clock
      ensures State() == Serve(old(State()), Waiting(seconds), cfg) && Valid()
    {
      hide Sound;
      StepKeepsSound(State(), Waiting(seconds), cfg);
      clock := clock + seconds;
    }

    // ----- lookups

    method UserWithEmail(email: string) returns (u: Option<Id>)
      requires UsersDistinct(users)
      ensures u == A.UserByEmail(Tables(), email)
    {
      u := None;
      if v :| v in users && users[v].deletedAt.None? && users[v].email == email {
        u := Some(v);
        L.UserLookupExact(Tables(), v);
      }
    }

    method UserWithPhone(phone: string) returns (u: Option<Id>)
      requires UsersDistinct(users)
      ensures u == A.UserByPhone(Tables(), phone)
    {
      u := None;
      if v :| v in users && users[v].deletedAt.None? && users[v].phone == Some(phone) {
        u := Some(v);
        L.UserLookupExact(Tables(), v);
      }
    }

    method PendingWithEmail(email: string) returns (id: Option<Id>)
      requires RowsDistinct(pending)
      ensures id == A.PendingByEmail(Tables(), email)
    {
      id := None;
      if k :| k in pending && pending[k].email == email {
        id := Some(k);
        Steps.LookupsExact(Tables(), email, None);
      }
    }

    method PendingWithPhone(phone: string) returns (id: Option<Id>)
      requires RowsDistinct(pending)
      ensures id == A.PendingByPhone(Tables(), Some(phone))
    {
      id := None;
      if k :| k in pending && pending[k].phone == Some(phone) {
        id := Some(k);
        Steps.LookupsExact(Tables(), "", Some(phone));
      }
    }

    // ----- tokens

    method IssueTokens(u: Id) returns (t: Tokens)
      modifies this`sessions
      ensures (State(), t) == ServiceCalls.IssueTokens(old(State()), u, cfg)
    {
      var family := |sessions|;
      sessions := sessions + [R.RefreshToken(u, family, clock + cfg.refreshTtl, None, None)];
      t := Tokens(AccessToken(u, family, Floored(clock + cfg.accessTtl)), family);
    }

    method Login(email: string, password: string) returns (r: Answer)
      requires Valid()
      modifies this
      ensures (State(), r) == LoginCall(old(State()), email, password, cfg) && Valid()
    {
      assert UsersDistinct(users);
      hide Sound;
      StepKeepsSound(State(), LoggingIn(email, password), cfg);
      var u := UserWithEmail(email);
      if u == None {
        return Failure(A.Unauthorized);
      }
      var user := users[u.value];
      if user.password == None || user.password.value != A.PasswordHash(password) {
        return Failure(A.Unauthorized);
      }
      if user.emailVerifiedAt == None {
        return Failure(A.Forbidden);
      }
      if !user.active {
        return Failure(A.Forbidden);
      }
      var t := IssueTokens(u.value);
      r := Success(t);
    }

    method Refresh(k: nat) returns (r: Answer)
      requires Valid()
      modifies this
      ensures (State(), r) == RefreshCall(old(State()), k, cfg) && Valid()
    {
      hide Sound;
      StepKeepsSound(State(), Refreshing(k), cfg);
      if k >= |sessions| {
        return Failure(A.Unauthorized);
      }
      var token := sessions[k];
      if token.revokedAt != None {
        sessions := R.RevokeFamily(sessions, token.family, clock);
        return Failure(A.Unauthorized);
      }
      if token.expiresAt <= clock {
        return Failure(A.Unauthorized);
      }
      if token.user !in users || users[token.user].deletedAt != None || !users[token.user].active
          || users[token.user].emailVerifiedAt == None {
        return Failure(A.Unauthorized);
      }
      sessions := sessions[k := token.(revokedAt := Some(clock))];
      var successor := |sessions|;
      sessions := sessions + [R.RefreshToken(token.user, token.family, clock + cfg.refreshTtl, None, Some(k))];
      r := Success(Tokens(AccessToken(token.user, token.family, Floored(clock + cfg.accessTtl)), successor));
    }

    method Logout(k: nat)
      requires Valid()
      modifies this`sessions
      ensures State() == LogoutCall(old(State()), k) && Valid()
    {
      hide Sound;
      StepKeepsSound(State(), LoggingOut(k), cfg);
      if k < |sessions| && sessions[k].revokedAt == None {
        sessions := sessions[k := sessions[k].(revokedAt := Some(clock))];
      }
    }

    /** `get_current_user` */
    method CurrentUser(bearer: Bearer) returns (r: Result<Id, A.Error>)
      ensures r == ServiceCalls.CurrentUser(State(), bearer)
    {
      r := Failure(A.Unauthorized);
      if !bearer.Token? || bearer.expiresAt <= clock || !bearer.isAccess {
        return;
      }
      if !bearer.subject.Named? || !bearer.session.Named? {
        return;
      }
      var u := bearer.subject.id;
      if u !in users || users[u].deletedAt != None || !users[u].active || users[u].emailVerifiedAt == None {
        return;
      }
      if !R.HasActiveFamily(sessions, u, bearer.session.id, clock) {
        return;
      }
      r := Success(u);
    }

    // ----- passwords

    method ForgotPassword(email: string)
      requires Valid()
      modifies this`resets
      ensures State() == ForgotCall(old(State()), email, cfg) && Valid()
    {
      assert UsersDistinct(users);
      hide Sound;
      StepKeepsSound(State(), ForgettingPassword(email), cfg);
      var u := UserWithEmail(email);
      if u == None || !users[u.value].active || users[u.value].emailVerifiedAt == None {
        return;
      }
      resets := P.MarkUserUsed(resets, u.value, clock);
      resets := resets + [P.ResetToken(u.value, clock + cfg.resetTtl, None)];
    }

    method ResetPassword(k: nat, password: string) returns (error: Option<A.Error>)
      requires Valid()
      modifies this`users, this`resets, this`sessions
      ensures (State(), error) == ResetCall(old(State()), k, password) && Valid()
    {
      hide Sound;
      StepKeepsSound(State(), ResettingPassword(k, password), cfg);
      if k >= |resets| || resets[k].usedAt != None || resets[k].expiresAt <= clock {
        return Some(A.Unauthorized);
      }
      var u := resets[k].user;
      if u !in users || users[u].deletedAt != None || !users[u].active {
        return Some(A.Unauthorized);
      }
      users := users[u := users[u].(password := Some(A.PasswordHash(password)))];
      resets := resets[k := resets[k].(usedAt := Some(clock))];
      resets := P.MarkUserUsed(resets, u, clock);
      sessions := R.RevokeAllForUser(sessions, u, clock);
      error := None;
    }

    method SetPassword(u: Id, password: string) returns (error: Option<A.Error>)
      requires Valid()
      modifies this`users
      ensures (State(), error) == Of(old(State()), A.SetPassword(old(Tables()), u, password)) && Valid()
    {
      hide Sound;
      StepKeepsSound(State(), SettingPassword(u, password), cfg);
      if u !in users || users[u].deletedAt != None {
        return Some(A.NotFound);
      }
      if users[u].password != None {
        return Some(A.Conflict);
      }
      users := users[u := users[u].(password := Some(A.PasswordHash(password)))];
      error := None;
    }

    method ChangePassword(u: Id, current: string, password: string) returns (error: Option<A.Error>)
      requires Valid()
      modifies this`users
      ensures (State(), error) == Of(old(State()), A.ChangePassword(old(Tables()), u, current, password)) && Valid()
    {
      hide Sound;
      StepKeepsSound(State(), ChangingPassword(u, current, password), cfg);
      if u !in users || users[u].deletedAt != None {
        return Some(A.NotFound);
      }
      if users[u].password == None {
        return Some(A.Conflict);
      }
      if users[u].password.value != A.PasswordHash(current) {
        return Some(A.Unauthorized);
      }
      users := users[u := users[u].(password := Some(A.PasswordHash(password)))];
      error := None;
    }

    // ----- providers

    method LinkProvider(u: Id, provider: string, profile: Option<string>) returns (error: Option<A.Error>)
      requires Valid()
      modifies this`social
      ensures (State(), error) == Of(old(State()), A.LinkProvider(old(Tables()), u, provider, profile)) && Valid()
    {
      hide Sound;
      StepKeepsSound(State(), LinkingProvider(u, provider, profile), cfg);
      if provider == "google" {
        return Some(A.Forbidden);
      }
      if u !in users || users[u].deletedAt != None {
        return Some(A.NotFound);
      }
      if k :| k in social && k.provider == provider && social[k] == u {
        return Some(A.Conflict);
      }
      if profile == None {
        return Some(A.Unauthorized);
      }
      var key := A.SocialKey(provider, profile.value);
      if key in social && social[key] != u {
        return Some(A.Conflict);
      }
      social := social[key := u];
      error := None;
    }

    method UnlinkProvider(u: Id, provider: string) returns (error: Option<A.Error>)
      requires Valid()
      modifies this`social
      ensures (State(), error) == Of(old(State()), A.UnlinkProvider(old(Tables()), u, provider)) && Valid()
    {
      UnlinkKeepsSound(State(), u, provider, cfg);
      assert LinksDistinct(social);
      hide Sound, LinksDistinct;
      if u !in users || users[u].deletedAt != None {
        return Some(A.NotFound);
      }
      if key :| key in social && key.provider == provider && social[key] == u {
        OnlyLinkGoes(Tables(), u, key);
        hide A.UnlinkProvider;
        var linked := set k | k in social && social[k] == u;
        assert linked == A.LinksOf(Tables(), u);
        if users[u].password == None && |linked| <= 1 {
          return Some(A.Conflict);
        }
        social := social - {key};
        error := None;
      } else {
        error := Some(A.NotFound);
      }
    }

    /** `profile` is what the provider vouched for, its account and its email; a failed exchange ends before any table
        is read. */
    method OAuthCallback(provider: string, account: string, email: string) returns (r: Answer)
      requires Valid()
      modifies this
      ensures (State(), r) == OAuthCall(old(State()), provider, account, email, cfg) && Valid()
    {
      assert UsersDistinct(users);
      hide Sound, UsersDistinct, A.OAuthCallback;
      OAuthKeepsSound(State(), provider, account, email, cfg);
      var u := FindOrCreateUser(provider, account, email);
      if u.Failure? {
        return Failure(u.error);
      }
      var t := IssueTokens(u.value);
      r := Success(t);
    }

    method FindOrCreateUser(provider: string, account: string, email: string) returns (r: Result<Id, A.Error>)
      requires UsersDistinct(users)
      modifies this`users, this`social, this`next
      ensures (Tables(), r) == A.OAuthCallback(old(Tables()), provider, account, email)
    {
      var key := A.SocialKey(provider, account);
      if key in social {
        var u := social[key];
        if u !in users || !users[u].active || users[u].deletedAt != None {
          return Failure(A.Forbidden);
        }
        return Success(u);
      }
      var found := UserWithEmail(email);
      hide UsersDistinct;
      if found == None {
        var clash := Clashes(email, None);
        if clash {
          return Failure(A.IntegrityViolation);
        }
        var u := next;
        users := users[u := A.User(email, None, None, Some(clock), None, true, None)];
        next := next + 1;
        social := social[key := u];
        return Success(u);
      }
      var u := found.value;
      if k :| k in social && k.provider == provider && social[k] == u {
        return Failure(A.IntegrityViolation);
      }
      if !users[u].active {
        return Failure(A.Forbidden);  // the stamp and the link made so far are rolled back
      }
      if users[u].emailVerifiedAt == None {
        users := users[u := users[u].(emailVerifiedAt := Some(clock))];
      }
      assert users == old(users)[u := A.EmailConfirmed(old(users)[u], clock)];
      social := social[key := u];
      r := Success(u);
    }

    /** Whether the unique columns refuse a user with this email and phone. */
    method Clashes(email: string, phone: Option<string>) returns (clash: bool)
      ensures clash == A.UserClash(Tables(), email, phone)
    {
      clash := exists u :: u in users && (users[u].email == email || (phone.Some? && users[u].phone == phone));
    }

    /** The part of `complete_google_callback` after Google has vouched for the profile. */
    method GoogleCallback(account: string, email: string) returns (r: GoogleAnswer)
      requires Valid()
      modifies this
      ensures (State(), r) == GoogleCall(old(State()), account, email, cfg) && Valid()
    {
      assert UsersDistinct(users) && RowsDistinct(pending);
      hide Sound, UsersDistinct, RowsDistinct, A.GoogleCallback;
      ghost var s := State();
      GoogleKeepsSound(s, account, email, cfg);
      hide GoogleCall;
      var result := GoogleOutcome(account, email);
      assert Of(s, (Tables(), result)) == Of(s, A.GoogleCallback(s.accounts, account, email, cfg));
      if result.SignedIn? {
        var t := IssueTokens(result.user);
        r := Tokenized(t);
      } else {
        r := Redirected(result);
      }
      GoogleAnswers(s, account, email, cfg);
    }

    method GoogleOutcome(account: string, email: string) returns (r: A.GoogleResult)
      requires UsersDistinct(users) && RowsDistinct(pending)
      modifies this`pending, this`next, this`tracks
      ensures (Tables(), r) == A.GoogleCallback(old(Tables()), account, email, cfg)
    {
      var key := A.SocialKey("google", account);
      if key in social {
        var u := social[key];
        if u !in users || !users[u].active || users[u].deletedAt != None {
          return A.AuthFailed;
        }
        return A.SignedIn(u);
      }
      var found := UserWithEmail(email);
      if found != None {
        return A.LinkingRequired;
      }
      var existing := PendingWithEmail(email);
      hide UsersDistinct, RowsDistinct;
      if existing != None && clock < pending[existing.value].expiresAt {
        if pending[existing.value].oauth == Some(A.OAuth("google", account)) {
          return A.PhoneRequired(existing.value);
        }
        return A.Raised;
      }
      if existing != None {
        pending := pending - {existing.value};
      }
      var id := next;
      pending := pending[id := A.Pending(email, None, None, A.Candidate, clock + cfg.pendingTtl,
        A.BLANK.(verifiedAt := Some(clock)), A.BLANK, Some(A.OAuth("google", account)), None)];
      next := next + 1;
      tracks := tracks[id := A.Track(A.Candidate, clock, clock, 1)];
      r := A.PhoneRequired(id);
    }

    // ----- signup

    method StartSignup(email: string, phone: string, password: string) returns (r: Result<Id, A.Error>)
      requires Valid()
      modifies this
      ensures (State(), r) == Of(old(State()), A.StartSignup(old(Tables()), email, phone, password, cfg)) && Valid()
    {
      assert UsersDistinct(users) && RowsDistinct(pending) && RowsTracked(pending, tracks);
      hide Sound, UsersDistinct, RowsDistinct, RowsTracked, A.Prepare;
      AccountsKeepSound(State(), StartingSignup(email, phone, password), cfg);
      var byEmail := UserWithEmail(email);
      if byEmail != None {
        return Failure(A.Conflict);
      }
      var byPhone := UserWithPhone(phone);
      if byPhone != None {
        return Failure(A.Conflict);
      }
      r := GetOrPrepare(email, Some(phone), A.PasswordHash(password), A.Candidate);
    }

    method StartOrganizationSignup(email: string, password: string) returns (r: Result<Id, A.Error>)
      requires Valid()
      modifies this
      ensures (State(), r) == Of(old(State()), A.StartOrganizationSignup(old(Tables()), email, password, cfg))
        && Valid()
    {
      assert UsersDistinct(users) && RowsDistinct(pending) && RowsTracked(pending, tracks);
      hide Sound, UsersDistinct, RowsDistinct, RowsTracked, A.Prepare;
      AccountsKeepSound(State(), StartingOrganizationSignup(email, password), cfg);
      var byEmail := UserWithEmail(email);
      if byEmail != None {
        return Failure(A.Conflict);
      }
      r := GetOrPrepare(email, None, A.PasswordHash(password), A.Organization);
    }

    /** `_get_or_prepare_pending_signup`; the rows of the open transaction are kept aside until it commits. */
    method GetOrPrepare(email: string, phone: Option<string>, password: A.PasswordHash,
        kind: A.Kind) returns (r: Result<Id, A.Error>)
      requires RowsDistinct(pending) && RowsTracked(pending, tracks)
      modifies this`pending, this`otp, this`next, this`tracks
      ensures (Tables(), r) == A.Prepare(old(Tables()), email, phone, password, kind, cfg)
    {
      L.GatheredRows(Tables(), email, phone);
      hide A.Gather, RowsDistinct, A.PrepareRow, L.StaleBothWays;
      var byEmail, byPhone, rows := FindOpenRows(email, phone);
      ghost var h := A.InHand(byEmail, byPhone, otp, rows);
      ClearedAlready(old(Tables()), h, email, phone, password, kind, cfg);
      r := WriteRow(byEmail, byPhone, rows, email, phone, password, kind);
    }

    method WriteRow(byEmail: Option<Id>, byPhone: Option<Id>, rows: map<Id, A.Pending>,
                    email: string, phone: Option<string>, password: A.PasswordHash, kind: A.Kind)
      returns (r: Result<Id, A.Error>)
      requires byEmail.Some? ==> byEmail.value in pending
      requires byPhone.Some? ==> byPhone.value in pending
      requires forall id :: id in rows ==> id in tracks
      modifies this`pending, this`otp, this`next, this`tracks
      ensures (Tables(), r) ==
        A.PrepareRow(old(Tables()), A.InHand(byEmail, byPhone, old(otp), rows), email, phone, password, kind, cfg)
    {
      hide A.Reprepared, A.FreshRow, A.Blocks, ClearSession;
      var refused := RulesOut(byEmail, byPhone, kind);
      if refused {
        r := Failure(A.Conflict);
      } else if byEmail == None && byPhone == None {
        r := Success(next);
        AddRow(rows, email, phone, password, kind);
      } else {
        var id := if byEmail.Some? then byEmail.value else byPhone.value;
        otp := ClearSession(otp, id);
        Rewrite(rows, id, email, phone, password, kind);
        r := Success(id);
      }
    }

    /** A row in hand is completed, or of the other kind, or the two are not one. */
    method RulesOut(byEmail: Option<Id>, byPhone: Option<Id>, kind: A.Kind) returns (refused: bool)
      requires byEmail.Some? ==> byEmail.value in pending
      requires byPhone.Some? ==> byPhone.value in pending
      ensures refused == (A.Blocks(Tables(), byEmail, kind) || A.Blocks(Tables(), byPhone, kind)
                          || (byEmail.Some? && byPhone.Some? && byEmail != byPhone))
    {
      if byEmail.Some? && pending[byEmail.value].completedUser != None {
        return true;
      }
      if byPhone.Some? && pending[byPhone.value].completedUser != None {
        return true;
      }
      if byEmail.Some? && pending[byEmail.value].kind != kind {
        return true;
      }
      if byPhone.Some? && pending[byPhone.value].kind != kind {
        return true;
      }
      refused := byEmail.Some? && byPhone.Some? && byEmail != byPhone;
    }

    method AddRow(rows: map<Id, A.Pending>, email: string, phone: Option<string>, password: A.PasswordHash,
        kind: A.Kind)
      modifies this`pending, this`next, this`tracks
      ensures var s := old(Tables());
        Tables() == s.(pending := rows[s.next := A.FreshRow(s, email, phone, password, kind, cfg)], next := s.next + 1,
                       tracks := s.tracks[s.next := A.Track(kind, s.clock, s.clock, 1)])
    {
      pending := rows[next := A.Pending(email, phone, Some(password), kind, clock + cfg.pendingTtl, A.BLANK, A.BLANK,
        None, None)];
      tracks := tracks[next := A.Track(kind, clock, clock, 1)];
      next := next + 1;
    }

    /** The lookups by email and phone, and the deletion of what lapsed among them. */
    method FindOpenRows(email: string,
        phone: Option<string>) returns (byEmail: Option<Id>, byPhone: Option<Id>, rows: map<Id, A.Pending>)
      requires RowsDistinct(pending)
      modifies this`otp
      ensures A.InHand(byEmail, byPhone, otp, rows) == A.Gather(old(Tables()), email, phone)
      ensures byEmail.Some? ==> byEmail.value in pending
      ensures byPhone.Some? ==> byPhone.value in pending
    {
      var found := PendingWithEmail(email);
      byEmail, byPhone := found, None;
      if phone.Some? {
        byPhone := PendingWithPhone(phone.value);
      }
      hide RowsDistinct, ClearSession;
      rows := pending;
      if byEmail.Some? && pending[byEmail.value].completedUser == None && pending[byEmail.value].expiresAt <= clock {
        otp := ClearSession(otp, byEmail.value);
        rows := rows - {byEmail.value};
        byEmail := None;
      }
      if byPhone.Some? && byPhone != found && pending[byPhone.value].completedUser == None
          && pending[byPhone.value].expiresAt <= clock {
        otp := ClearSession(otp, byPhone.value);
        rows := rows - {byPhone.value};
        byPhone := None;
      }
    }

    /** The row written in place, if the transaction still has it. */
    method Rewrite(rows: map<Id, A.Pending>, id: Id, email: string, phone: Option<string>,
        password: A.PasswordHash, kind: A.Kind)
      requires id in rows ==> id in tracks
      modifies this`pending, this`tracks
      ensures Tables() == A.Reprepared(old(Tables()).(pending := rows), id, email, phone, password, kind, cfg)
    {
      pending := rows;
      if id in pending {
        var row := pending[id];
        row := row.(email := email, phone := phone, kind := kind, password := Some(password),
          expiresAt := clock + cfg.pendingTtl);
        row := row.(emailState := A.BLANK, phoneState := A.BLANK, completedUser := None);
        pending := pending[id := row];
        tracks := tracks[id := A.Track(tracks[id].kind, clock, clock, tracks[id].preparations + 1)];
      }
    }

    /** `_load_active_pending` */
    method LoadActive(id: Id, allowCompleted: bool) returns (error: Option<A.Error>)
      modifies this`pending, this`otp
      ensures (Tables(), error) == A.Load(old(Tables()), id, allowCompleted)
      ensures error == None ==> id in pending && pending == old(pending) && otp == old(otp)
    {
      if id !in pending {
        return Some(A.NotFound);
      }
      if allowCompleted && pending[id].completedUser != None {
        return None;
      }
      if pending[id].expiresAt <= clock {
        otp := ClearSession(otp, id);
        pending := pending - {id};
        return Some(A.Unauthorized);
      }
      error := None;
    }

    /** The six sending calls: email or phone, first or again, candidate or organization. */
    method SendChannel(id: Id, kind: A.Kind, ch: Channel, resend: bool, code: string,
        dispatched: Option<string>) returns (error: Option<A.Error>)
      requires Valid()
      modifies this
      ensures (State(), error) ==
        Of(old(State()), A.SendChannel(old(Tables()), id, kind, ch, resend, code, dispatched, cfg)) && Valid()
    {
      hide Sound, A.Load, A.SendCode;
      AccountsKeepSound(State(), SendingCode(id, kind, ch, resend, code, dispatched), cfg);
      if ch == Phone && !cfg.phoneEnabled {
        return Some(A.Forbidden);
      }
      error := LoadActive(id, false);
      if error != None {
        return;
      }
      if pending[id].kind != kind {
        return Some(A.Conflict);
      }
      if resend {
        var wait := SecondsUntilResend(A.StateOf(pending[id], ch).lastSent);
        if wait > 0 {
          return Some(A.RateLimited(wait));
        }
      }
      error := SendCode(id, ch, code, dispatched);
    }

    method SecondsUntilResend(lastSent: Option<A.Time>) returns (seconds: nat)
      ensures seconds == A.WaitBeforeResend(Tables(), lastSent, cfg)
    {
      if lastSent == None {
        return 0;
      }
      var remaining := cfg.cooldown - A.WholeSeconds(clock - lastSent.value);
      seconds := if remaining > 0 then remaining else 0;
    }

    /** `_send_channel_otp` */
    method SendCode(id: Id, ch: Channel, code: string, dispatched: Option<string>) returns (error: Option<A.Error>)
      requires id in pending
      modifies this`pending, this`otp, this`issuedTo
      ensures (Tables(), error) == A.SendCode(old(Tables()), id, ch, code, dispatched, cfg)
    {
      var slot := Slot(id, ch);
      if A.StateOf(pending[id], ch).verifiedAt != None {
        return None;
      }
      var before := otp;
      otp := CountSend(otp, slot, clock);
      if otp.rates[slot].value > cfg.maxSends {
        return Some(A.RateLimited(RetryAfter(otp, slot, clock)));
      }
      if ch == Phone && cfg.msg91 {
        if dispatched == None {
          return Some(A.Unavailable);
        }
        var state := ProviderState(dispatched.value, A.Address(pending[id], ch));
        otp := otp.(provider := Redis.SetEx(otp.provider, slot, state, clock, cfg.providerTtl));
      } else {
        otp := StoreCode(otp, slot, code, clock, cfg.codeTtl);
        issuedTo := issuedTo[slot := A.Address(pending[id], ch)];
        if dispatched == None {
          return Some(A.Unavailable);
        }
      }
      pending := pending[id := A.Sent(pending[id], ch, clock)];
      error := None;
    }

    /** The three verifying calls. */
    method VerifyChannel(id: Id, kind: A.Kind, ch: Channel, code: string,
        answer: A.ProviderAnswer) returns (error: Option<A.Error>)
      requires Valid()
      modifies this
      ensures (State(), error) == Of(old(State()), A.VerifyChannel(old(Tables()), id, kind, ch, code, answer, cfg))
        && Valid()
    {
      hide Sound, A.Load, A.CheckCode;
      AccountsKeepSound(State(), VerifyingCode(id, kind, ch, code, answer), cfg);
      if ch == Phone && !cfg.phoneEnabled {
        return Some(A.Forbidden);
      }
      error := LoadActive(id, false);
      if error != None {
        return;
      }
      if pending[id].kind != kind {
        return Some(A.Conflict);
      }
      error := CheckCode(id, ch, code, answer);
    }

    /** `_verify_channel_otp` */
    method CheckCode(id: Id, ch: Channel, code: string, answer: A.ProviderAnswer) returns (error: Option<A.Error>)
      requires id in pending
      modifies this`pending, this`otp
      ensures (Tables(), error) == A.CheckCode(old(Tables()), id, ch, code, answer, cfg)
    {
      hide A.VerifyWithProvider, A.WellShaped;
      if A.StateOf(pending[id], ch).attempts >= cfg.maxAttempts || !A.WellShaped(code) {
        return Some(A.Unauthorized);
      }
      if A.StateOf(pending[id], ch).verifiedAt != None {
        return None;
      }
      if ch == Phone && cfg.msg91 {
        error := CheckWithProvider(id, answer);
        return;
      }
      var (keys, ok) := VerifyCode(otp, Slot(id, ch), code, clock);
      otp := keys;
      if ok {
        Stamp(id, ch);
        error := None;
      } else {
        CountFailure(id, ch);
        error := Some(A.Unauthorized);
      }
    }

    method CountFailure(id: Id, ch: Channel)
      requires id in pending
      modifies this`pending
      ensures Tables() == A.Failed(old(Tables()), id, ch)
    {
      if ch == Email {
        var c := pending[id].emailState;
        pending := pending[id := pending[id].(emailState := c.(attempts := c.attempts + 1))];
      } else {
        var c := pending[id].phoneState;
        pending := pending[id := pending[id].(phoneState := c.(attempts := c.attempts + 1))];
      }
    }

    method Stamp(id: Id, ch: Channel)
      requires id in pending
      modifies this`pending
      ensures Tables() == A.Stamped(old(Tables()), id, ch)
    {
      if ch == Email {
        pending := pending[id := pending[id].(emailState := pending[id].emailState.(verifiedAt := Some(clock)))];
      } else {
        pending := pending[id := pending[id].(phoneState := pending[id].phoneState.(verifiedAt := Some(clock)))];
      }
    }

    /** `_verify_msg91_phone_otp` */
    method CheckWithProvider(id: Id, answer: A.ProviderAnswer) returns (error: Option<A.Error>)
      requires id in pending
      modifies this`pending, this`otp
      ensures (Tables(), error) == A.VerifyWithProvider(old(Tables()), id, answer)
    {
      hide A.Failed, A.Stamped, ClearSlot;
      RowsOnly(Tables(), id);
      var state := Redis.Get(otp.provider, Slot(id, Phone), clock);
      if state == None {
        CountFailure(id, Phone);
        return Some(A.Unauthorized);
      }
      if state.value.phone == "" || state.value.requestId == "" {
        CountFailure(id, Phone);
        otp := ClearSlot(otp, Slot(id, Phone));
        return Some(A.Unauthorized);
      }
      if state.value.phone != A.Address(pending[id], Phone) {
        CountFailure(id, Phone);
        return Some(A.Conflict);
      }
      match answer {
        case Down => return Some(A.Unavailable);
        case Wrong =>
          CountFailure(id, Phone);
          return Some(A.Unauthorized);
        case Right =>
          otp := ClearSlot(otp, Slot(id, Phone));
          Stamp(id, Phone);
          error := None;
      }
    }

    method SetGooglePhone(id: Id, phone: string) returns (error: Option<A.Error>)
      requires Valid()
      modifies this
      ensures (State(), error) == Of(old(State()), A.SetGooglePhone(old(Tables()), id, phone)) && Valid()
    {
      assert UsersDistinct(users) && RowsDistinct(pending) && RowsTracked(pending, tracks);
      hide Sound, UsersDistinct, RowsDistinct, A.Load, A.UserByPhone, A.PendingByPhone, A.PhoneReplaced;
      AccountsKeepSound(State(), SettingGooglePhone(id, phone), cfg);
      error := LoadActive(id, false);
      if error != None {
        return;
      }
      if pending[id].kind != A.Candidate {
        return Some(A.Conflict);
      }
      if pending[id].oauth == None || pending[id].oauth.value.provider != "google"
          || pending[id].emailState.verifiedAt == None {
        return Some(A.Forbidden);
      }
      var existing := UserWithPhone(phone);
      var other := PendingWithPhone(phone);
      if existing != None || (other != None && other != Some(id)) {
        return Some(A.Conflict);
      }
      AttachPhone(id, phone);
      error := None;
    }

    method AttachPhone(id: Id, phone: string)
      requires id in pending && id in tracks
      modifies this`pending, this`tracks
      ensures Tables() == A.PhoneReplaced(old(Tables()), id, phone)
    {
      pending := pending[id := pending[id].(phone := Some(phone))];
      pending := pending[id := pending[id].(phoneState := pending[id].phoneState.(verifiedAt := None))];
      tracks := tracks[id := tracks[id].(phoneSetAt := clock)];
    }

    // ----- completion

    method CompleteSignup(id: Id, kind: A.Kind) returns (r: Answer)
      requires Valid()
      modifies this
      ensures (State(), r) == CompleteCall(old(State()), id, kind, cfg) && Valid()
    {
      assert UsersDistinct(users) && RowsTracked(pending, tracks);
      hide Sound, UsersDistinct, RowsTracked, A.Complete;
      CompleteKeepsSound(State(), id, kind, cfg);
      var u := SettleUser(id, kind);
      if u.Failure? {
        return Failure(u.error);
      }
      var t := IssueTokens(u.value);
      r := Success(t);
    }

    /** `_load_active_pending` and `_complete_pending_signup` up to the tokens. */
    method SettleUser(id: Id, kind: A.Kind) returns (r: Result<Id, A.Error>)
      requires UsersDistinct(users) && RowsTracked(pending, tracks)
      modifies this`users, this`social, this`pending, this`otp, this`next, this`origins
      ensures (Tables(), r) == A.Complete(old(Tables()), id, kind)
    {
      hide UsersDistinct, A.Load, A.UserCreated, A.ExistingAccount, A.UserClash, ClearSession;
      var error := LoadActive(id, true);
      if error != None {
        return Failure(error.value);
      }
      var row := pending[id];
      if row.kind != kind {
        return Failure(A.Conflict);
      }
      if row.completedUser != None {
        var u := row.completedUser.value;
        if u !in users || users[u].deletedAt != None {
          return Failure(A.Conflict);
        }
        return Success(u);
      }
      if row.emailState.verifiedAt == None || (kind == A.Candidate && row.phoneState.verifiedAt == None) {
        return Failure(A.Conflict);
      }
      var clash := Clashes(row.email, row.phone);
      if clash {
        if row.oauth != None {
          return Failure(A.Conflict);
        }
        var u := FindExisting(row);
        if u == None || users[u.value].email != row.email || (row.phone != None && users[u.value].phone != row.phone) {
          return Failure(A.Conflict);
        }
        pending := pending[id := row.(completedUser := u)];
        otp := ClearSession(otp, id);
        return Success(u.value);
      }
      if row.oauth != None && A.SocialKey(row.oauth.value.provider, row.oauth.value.account) in social {
        return Failure(A.IntegrityViolation);
      }
      r := Success(next);
      CreateUser(id);
    }

    method FindExisting(row: A.Pending) returns (u: Option<Id>)
      requires UsersDistinct(users)
      ensures u == A.ExistingAccount(Tables(), row)
      ensures u.Some? ==> u.value in users
    {
      u := UserWithEmail(row.email);
      if u == None && row.phone != None {
        u := UserWithPhone(row.phone.value);
      }
    }

    method CreateUser(id: Id)
      requires id in pending && id in tracks
      modifies this`users, this`social, this`pending, this`otp, this`next, this`origins
      ensures Tables() == A.UserCreated(old(Tables()), id)
    {
      var u, row := next, pending[id];
      users := users[u := A.User(row.email, row.phone, row.password, row.emailState.verifiedAt,
        if row.kind == A.Candidate then row.phoneState.verifiedAt else None, true, None)];
      next := next + 1;
      pending := pending[id := row.(completedUser := Some(u))];
      if row.oauth != None {
        social := social[A.SocialKey(row.oauth.value.provider, row.oauth.value.account) := u];
        pending := pending[id := pending[id].(oauth := None)];
      }
      otp := ClearSession(otp, id);
      origins := origins[u := A.Origin(id, row.kind, tracks[id].emailSetAt, tracks[id].phoneSetAt)];
    }
  }
}
