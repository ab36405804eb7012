/** The public calls of the authentication service over all its tables, and the guard of every protected route. */
module ServiceCalls {
  import opened Common
  import opened SignupOtp
  import opened Accounts
  import Redis
  import RefreshSessions
  import PasswordResets

  datatype Service = Service(accounts: Accounts, sessions: RefreshSessions.Sessions, resets: PasswordResets.Resets)

  /** The claims of a JWT access token that the service minted. */
  datatype AccessToken = AccessToken(subject: Id, family: Id, expiresAt: Time)

  datatype Tokens = Tokens(access: AccessToken, refresh: nat)

  type Answer = Result<Tokens, Error>

  // ----- sign-in and sessions

  /** `int(timestamp)`: a JWT carries whole seconds. */
  function Floored(t: Time): Time {
    t / Redis.SECOND * Redis.SECOND
  }

  function MintAccess(s: Service, u: Id, family: Id, cfg: Settings): AccessToken {
    AccessToken(u, family, Floored(s.accounts.clock + cfg.accessTtl))
  }

  /** `_issue_tokens` */
  function IssueTokens(s: Service, u: Id, cfg: Settings): (Service, Tokens) {
    (s.(sessions := RefreshSessions.Issue(s.sessions, u, s.accounts.clock, cfg.refreshTtl)),
     Tokens(MintAccess(s, u, |s.sessions|, cfg), |s.sessions|))
  }

  /** Tokens for the user a call settled on. */
  function SignIn(s: Service, user: Result<Id, Error>, cfg: Settings): (Service, Answer) {
    match user
    case Failure(e) => (s, Failure(e))
    case Success(u) => var (s1, tokens) := IssueTokens(s, u, cfg); (s1, Success(tokens))
  }

  ghost function LoginCall(s: Service, email: string, password: string, cfg: Settings): (Service, Answer) {
    SignIn(s, Login(s.accounts, email, password), cfg)
  }

  ghost function CompleteCall(s: Service, id: Id, kind: Kind, cfg: Settings): (Service, Answer) {
    var (a, user) := Complete(s.accounts, id, kind);
    SignIn(s.(accounts := a), user, cfg)
  }

  ghost function OAuthCall(s: Service, provider: string, account: string, email: string, cfg: Settings): (Service,
      Answer) {
    var (a, user) := OAuthCallback(s.accounts, provider, account, email);
    SignIn(s.(accounts := a), user, cfg)
  }

  /** What Google's callback leads to; tokens travel in the handoff. */
  datatype GoogleAnswer = Tokenized(tokens: Tokens) | Redirected(result: GoogleResult)

  ghost function GoogleCall(s: Service, account: string, email: string, cfg: Settings): (Service, GoogleAnswer) {
    var (a, result) := GoogleCallback(s.accounts, account, email, cfg);
    if result.SignedIn? then
      var (s1, tokens) := IssueTokens(s.(accounts := a), result.user, cfg);
      (s1, Tokenized(tokens))
    else (s.(accounts := a), Redirected(result))
  }

  /** The owner of a refresh token may go on using it. */
  predicate Accepted(s: Service, u: Id) {
    Usable(s.accounts, u) && s.accounts.users[u].emailVerifiedAt.Some?
  }

  /** Every refusal looks the same to the client. */
  function RefreshCall(s: Service, k: nat, cfg: Settings): (Service, Answer) {
    var accepted := k < |s.sessions| && Accepted(s, s.sessions[k].user);
    var (sessions, result) := RefreshSessions.Refresh(s.sessions, k, accepted, s.accounts.clock, cfg.refreshTtl);
    (s.(sessions := sessions),
     if result.Failure? || k >= |s.sessions| then Failure(Unauthorized)
     else Success(Tokens(MintAccess(s, s.sessions[k].user, s.sessions[k].family, cfg), result.value)))
  }

  function LogoutCall(s: Service, k: nat): Service {
    s.(sessions := RefreshSessions.Logout(s.sessions, k, s.accounts.clock))
  }

  // ----- password reset

  /** Nothing tells the caller whether a token was made. */
  ghost function ForgotCall(s: Service, email: string, cfg: Settings): Service {
    var u := UserByEmail(s.accounts, email);
    if u.None? || !Accepted(s, u.value) then s
    else s.(resets := PasswordResets.Request(s.resets, u.value, s.accounts.clock, cfg.resetTtl))
  }

  function ResetCall(s: Service, k: nat, password: string): (Service, Option<Error>) {
    if !PasswordResets.Active(s.resets, k, s.accounts.clock) then (s, Some(Unauthorized))
    else
      var u := s.resets[k].user;
      var (a, error) := ResetPassword(s.accounts, u, password);
      if error.Some? then (s, error)
      else
        (Service(a, RefreshSessions.RevokeAllForUser(s.sessions, u, a.clock),
          PasswordResets.Spend(s.resets, k, a.clock)), None)
  }

  // ----- the guard

  /** A claim that should hold an id. */
  datatype Claim = Missing | Malformed | Named(id: Id)

  /** What the Authorization header carries; `Undecodable` covers a bad signature and a missing required claim. */
  datatype Bearer = NoCredentials | Undecodable | Token(isAccess: bool, subject: Claim, session: Claim, expiresAt: Time)

  function AsBearer(t: AccessToken): Bearer {
    Token(true, Named(t.subject), Named(t.family), t.expiresAt)
  }

  /** `get_current_user` */
  function CurrentUser(s: Service, b: Bearer): Result<Id, Error> {
    match b
    case NoCredentials => Failure(Unauthorized)
    case Undecodable => Failure(Unauthorized)
    case Token(isAccess, subject, session, expiresAt) =>
      if expiresAt <= s.accounts.clock || !isAccess || !subject.Named? || !session.Named? then Failure(Unauthorized)
      else if !Accepted(s, subject.id) then Failure(Unauthorized)
      else if !RefreshSessions.HasActiveFamily(s.sessions, subject.id, session.id, s.accounts.clock) then
        Failure(Unauthorized)
      else Success(subject.id)
  }

  // ----- runs

  datatype Call =
    | StartingSignup(email: string, phone: string, password: string)
    | StartingOrganizationSignup(email: string, password: string)
    | SendingCode(session: Id, kind: Kind, channel: Channel, resend: bool, code: string, dispatched: Option<string>)
    | VerifyingCode(session: Id, kind: Kind, channel: Channel, code: string, answer: ProviderAnswer)
    | SettingGooglePhone(session: Id, phone: string)
    | Completing(session: Id, kind: Kind)
    | LoggingIn(email: string, password: string)
    | ForgettingPassword(email: string)
    | ResettingPassword(token: nat, password: string)
    | Refreshing(token: nat)
    | LoggingOut(token: nat)
    | CallingBackGoogle(account: string, email: string)
    | CallingBackOAuth(provider: string, account: string, email: string)
    | SettingPassword(user: Id, password: string)
    | ChangingPassword(user: Id, current: string, password: string)
    | LinkingProvider(user: Id, provider: string, profile: Option<string>)
    | UnlinkingProvider(user: Id, provider: string)
    // what the rest of the application does, and time
    | RevokingAll(user: Id)
    | RevokingOthers(user: Id, family: Id)
    | SettingActive(user: Id, active: bool)
    | MarkingDeleted(user: Id)
    | Waiting(ms: nat)

  /** The effect of a call on the accounts. */
  ghost function AccountsAfter(s: Accounts, resets: PasswordResets.Resets, call: Call, cfg: Settings): Accounts {
    match call
    case StartingSignup(email, phone, password) => StartSignup(s, email, phone, password, cfg).0
    case StartingOrganizationSignup(email, password) => StartOrganizationSignup(s, email, password, cfg).0
    case SendingCode(id, kind, ch, resend, code, dispatched) => SendChannel(s, id, kind, ch, resend, code, dispatched,
      cfg).0
    case VerifyingCode(id, kind, ch, code, answer) => VerifyChannel(s, id, kind, ch, code, answer, cfg).0
    case SettingGooglePhone(id, phone) => SetGooglePhone(s, id, phone).0
    case Completing(id, kind) => Complete(s, id, kind).0
    case ResettingPassword(k, password) => if PasswordResets.Active(resets, k, s.clock) then
      ResetPassword(s, resets[k].user, password).0 else s
    case CallingBackGoogle(account, email) => GoogleCallback(s, account, email, cfg).0
    case CallingBackOAuth(provider, account, email) => OAuthCallback(s, provider, account, email).0
    case SettingPassword(u, password) => SetPassword(s, u, password).0
    case ChangingPassword(u, current, password) => ChangePassword(s, u, current, password).0
    case LinkingProvider(u, provider, profile) => LinkProvider(s, u, provider, profile).0
    case UnlinkingProvider(u, provider) => UnlinkProvider(s, u, provider).0
    case SettingActive(u, active) => SetActive(s, u, active)
    case MarkingDeleted(u) => SoftDelete(s, u)
    case Waiting(ms) => s.(clock := s.clock + ms)
    case _ => s
  }

  ghost function Serve(s: Service, call: Call, cfg: Settings): Service {
    match call
    case Completing(id, kind) => CompleteCall(s, id, kind, cfg).0
    case LoggingIn(email, password) => LoginCall(s, email, password, cfg).0
    case ForgettingPassword(email) => ForgotCall(s, email, cfg)
    case ResettingPassword(k, password) => ResetCall(s, k, password).0
    case Refreshing(k) => RefreshCall(s, k, cfg).0
    case LoggingOut(k) => LogoutCall(s, k)
    case CallingBackGoogle(account, email) => GoogleCall(s, account, email, cfg).0
    case CallingBackOAuth(provider, account, email) => OAuthCall(s, provider, account, email, cfg).0
    case RevokingAll(u) => s.(sessions := RefreshSessions.RevokeAllForUser(s.sessions, u, s.accounts.clock))
    case RevokingOthers(u, f) => s.(sessions := RefreshSessions.RevokeAllExceptFamily(s.sessions, u, f,
      s.accounts.clock))
    case _ => s.(accounts := AccountsAfter(s.accounts, s.resets, call, cfg))
  }

  ghost function Run(s: Service, calls: seq<Call>, cfg: Settings): Service
    decreases |calls|
  {
    if calls == [] then s else Run(Serve(s, calls[0], cfg), calls[1..], cfg)
  }
}
