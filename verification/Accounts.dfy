/** Users, staged signups and linked providers, and the service calls that change them (app/auth/service.py). */
module Accounts {
  import opened Common
  import opened SignupOtp

  type Time = int

  /** Argon2, as an injective function of the password. */
  datatype PasswordHash = PasswordHash(password: string)

  datatype Kind = Candidate | Organization

  datatype OAuth = OAuth(provider: string, account: string)

  datatype User = User(
    email: string, phone: Option<string>, password: Option<PasswordHash>,
    emailVerifiedAt: Option<Time>, phoneVerifiedAt: Option<Time>, active: bool, deletedAt: Option<Time>)

  /** The part of a pending row that belongs to one channel. */
  datatype ChannelState = ChannelState(verifiedAt: Option<Time>, sent: nat, attempts: nat, lastSent: Option<Time>)

  datatype Pending = Pending(
    email: string, phone: Option<string>, password: Option<PasswordHash>, kind: Kind, expiresAt: Time,
    emailState: ChannelState, phoneState: ChannelState, oauth: Option<OAuth>, completedUser: Option<Id>)

  /** History of a session: its kind, when its addresses were last set, how often it was prepared. Not in the source. */
  datatype Track = Track(kind: Kind, emailSetAt: Time, phoneSetAt: Time, preparations: nat)

  /** History of a user: the session it was created from. */
  datatype Origin = Origin(session: Id, kind: Kind, emailSetAt: Time, phoneSetAt: Time)

  datatype SocialKey = SocialKey(provider: string, account: string)

  datatype Accounts = Accounts(
    users: map<Id, User>, pending: map<Id, Pending>, social: map<SocialKey, Id>, otp: OtpKeys, next: Id, clock: Time,
    tracks: map<Id, Track>, origins: map<Id, Origin>, issuedTo: map<Slot, string>)

  /** Lifetimes are in milliseconds, except those of Redis keys and the cooldown, which are in seconds. */
  datatype Settings = Settings(
    pendingTtl: nat, codeTtl: nat, providerTtl: nat, maxAttempts: nat, maxSends: nat, cooldown: nat,
    phoneEnabled: bool, msg91: bool, refreshTtl: nat, accessTtl: nat, resetTtl: nat)

  /** Refusals of the service; the last two are a failed foreign call and an uncaught uniqueness violation. */
  datatype Error =
    | Conflict | NotFound | Unauthorized | Forbidden | RateLimited(retryAfter: nat) | Unavailable | IntegrityViolation

  const BLANK := ChannelState(None, 0, 0, None)

  // ----- queries

  function StateOf(p: Pending, ch: Channel): ChannelState {
    if ch == Email then p.emailState else p.phoneState
  }

  function WithState(p: Pending, ch: Channel, c: ChannelState): Pending {
    if ch == Email then p.(emailState := c) else p.(phoneState := c)
  }

  function Address(p: Pending, ch: Channel): string {
    if ch == Email then p.email else if p.phone.Some? then p.phone.value else ""
  }

  predicate Known(s: Accounts, u: Id) {
    u in s.users && s.users[u].deletedAt.None?
  }

  /** The account can be used: present, enabled, not deleted. */
  predicate Usable(s: Accounts, u: Id) {
    Known(s, u) && s.users[u].active
  }

  ghost function UserByEmail(s: Accounts, email: string): Option<Id> {
    if u :| Known(s, u) && s.users[u].email == email then Some(u) else None
  }

  ghost function UserByPhone(s: Accounts, phone: string): Option<Id> {
    if u :| Known(s, u) && s.users[u].phone == Some(phone) then Some(u) else None
  }

  ghost function PendingByEmail(s: Accounts, email: string): Option<Id> {
    if id :| id in s.pending && s.pending[id].email == email then Some(id) else None
  }

  ghost function PendingByPhone(s: Accounts, phone: Option<string>): Option<Id> {
    if phone.None? then None else if id :| id in s.pending && s.pending[id].phone == phone then Some(id) else None
  }

  // ----- shared steps; every call reads the time once, as `s.clock`

  predicate Expired(s: Accounts, id: Id)
    requires id in s.pending
  {
    s.pending[id].expiresAt <= s.clock
  }

  /** `_load_active_pending`: an expired session is deleted on sight, unless a completed one is welcome. */
  function Load(s: Accounts, id: Id, allowCompleted: bool): (Accounts, Option<Error>) {
    if id !in s.pending then (s, Some(NotFound))
    else if allowCompleted && s.pending[id].completedUser.Some? then (s, None)
    else if Expired(s, id) then (s.(otp := ClearSession(s.otp, id), pending := s.pending - {id}), Some(Unauthorized))
    else (s, None)
  }

  /** An expired session that never created a user. */
  predicate Lapsed(s: Accounts, id: Option<Id>) {
    id.Some? && id.value in s.pending && s.pending[id.value].completedUser.None? && Expired(s, id.value)
  }

  function ClearIf(otp: OtpKeys, clear: bool, id: Option<Id>): OtpKeys {
    if clear && id.Some? then ClearSession(otp, id.value) else otp
  }

  function FreshRow(s: Accounts, email: string, phone: Option<string>, password: PasswordHash,
      kind: Kind, cfg: Settings): Pending
  {
    Pending(email, phone, Some(password), kind, s.clock + cfg.pendingTtl, BLANK, BLANK, None, None)
  }

  /** What the lookups of `_get_or_prepare_pending_signup` leave in hand: rows by email and by phone, after lapsed ones
      were deleted. A lapsed row found both ways is deleted through the email lookup but stays in hand as the phone
      row. */
  datatype InHand = InHand(byEmail: Option<Id>, byPhone: Option<Id>, otp: OtpKeys, rows: map<Id, Pending>)

  ghost function Gather(s: Accounts, email: string, phone: Option<string>): InHand {
    var e, p := PendingByEmail(s, email), PendingByPhone(s, phone);
    var eGone := Lapsed(s, e);
    var pGone := p != e && Lapsed(s, p);
    var rows := s.pending - (if eGone then {e.value} else {}) - (if pGone then {p.value} else {});
    InHand(if eGone then None else e, if pGone then None else p, ClearIf(ClearIf(s.otp, eGone, e), pGone, p), rows)
  }

  /** A row in hand rules a new signup out: it is completed, or of the other kind. */
  predicate Blocks(s: Accounts, id: Option<Id>, kind: Kind) {
    id.Some? && id.value in s.pending && (s.pending[id.value].completedUser.Some? || s.pending[id.value].kind != kind)
  }

  /** `_get_or_prepare_pending_signup`. On a refusal the database rolls back; what was cleared in Redis stays
      cleared. */
  ghost function Prepare(s: Accounts, email: string, phone: Option<string>, password: PasswordHash,
      kind: Kind, cfg: Settings): (Accounts, Result<Id, Error>)
  {
    PrepareRow(s, Gather(s, email, phone), email, phone, password, kind, cfg)
  }

  ghost function PrepareRow(s: Accounts, h: InHand, email: string, phone: Option<string>,
      password: PasswordHash, kind: Kind, cfg: Settings): (Accounts, Result<Id, Error>)
  {
    if Blocks(s, h.byEmail, kind) || Blocks(s, h.byPhone, kind)
      || (h.byEmail.Some? && h.byPhone.Some? && h.byEmail != h.byPhone) then
      (s.(otp := h.otp), Failure(Conflict))
    else if h.byEmail.None? && h.byPhone.None? then
      (s.(otp := h.otp, pending := h.rows[s.next := FreshRow(s, email, phone, password, kind, cfg)], next := s.next + 1,
          tracks := s.tracks[s.next := Track(kind, s.clock, s.clock, 1)]), Success(s.next))
    else
      var id := if h.byEmail.Some? then h.byEmail.value else h.byPhone.value;
      (Reprepared(s.(otp := ClearSession(h.otp, id), pending := h.rows), id, email, phone, password, kind, cfg),
        Success(id))
  }

  /** The row rewritten in place; the OAuth columns are left as they were. A row already deleted stays deleted. */
  function Reprepared(s: Accounts, id: Id, email: string, phone: Option<string>, password: PasswordHash,
      kind: Kind, cfg: Settings): Accounts
  {
    if id !in s.pending || id !in s.tracks then s
    else
      s.(pending := s.pending[id := FreshRow(s, email, phone, password, kind, cfg).(oauth := s.pending[id].oauth)],
         tracks := s.tracks[id := Track(s.tracks[id].kind, s.clock, s.clock, s.tracks[id].preparations + 1)])
  }

  // ----- signup

  ghost function StartSignup(s: Accounts, email: string, phone: string, password: string,
      cfg: Settings): (Accounts, Result<Id, Error>)
  {
    if UserByEmail(s, email).Some? || UserByPhone(s, phone).Some? then (s, Failure(Conflict))
    else Prepare(s, email, Some(phone), PasswordHash(password), Candidate, cfg)
  }

  ghost function StartOrganizationSignup(s: Accounts, email: string, password: string,
      cfg: Settings): (Accounts, Result<Id, Error>)
  {
    if UserByEmail(s, email).Some? then (s, Failure(Conflict))
    else Prepare(s, email, None, PasswordHash(password), Organization, cfg)
  }

  /** `seconds_until_resend_allowed` */
  function WaitBeforeResend(s: Accounts, lastSent: Option<Time>, cfg: Settings): nat {
    if lastSent.None? then 0
    else
      var remaining := cfg.cooldown - WholeSeconds(s.clock - lastSent.value);
      if remaining > 0 then remaining else 0
  }

  /** `int(elapsed)` truncates. */
  function WholeSeconds(elapsed: int): int {
    if elapsed >= 0 then elapsed / Redis.SECOND else -(-elapsed / Redis.SECOND)
  }

  /** The guards before a channel is used: phone switched on, session active, kind right. */
  function Enter(s: Accounts, id: Id, kind: Kind, ch: Channel, cfg: Settings): (Accounts, Option<Error>) {
    if ch == Phone && !cfg.phoneEnabled then (s, Some(Forbidden))
    else
      var (s1, error) := Load(s, id, false);
      if error.Some? then (s1, error)
      else if s1.pending[id].kind != kind then (s1, Some(Conflict))
      else (s1, None)
  }

  function Sent(p: Pending, ch: Channel, now: Time): Pending {
    var c := StateOf(p, ch);
    WithState(p, ch, c.(sent := c.sent + 1, lastSent := Some(now)))
  }

  /** `_send_channel_otp`; `dispatched` is the provider's request id, or None when delivery failed. */
  function SendCode(s: Accounts, id: Id, ch: Channel, code: string, dispatched: Option<string>,
      cfg: Settings): (Accounts, Option<Error>)
    requires id in s.pending
  {
    var p, slot := s.pending[id], Slot(id, ch);
    if StateOf(p, ch).verifiedAt.Some? then (s, None)
    else
      var s1 := s.(otp := CountSend(s.otp, slot, s.clock));
      if !Accepts(s.otp, slot, s.clock, cfg.maxSends) then (s1, Some(RateLimited(RetryAfter(s1.otp, slot, s.clock))))
      else if ch == Phone && cfg.msg91 then
        if dispatched.None? then (s1, Some(Unavailable))
        else
          var state := ProviderState(dispatched.value, Address(p, ch));
          (s1.(otp := s1.otp.(provider := Redis.SetEx(s1.otp.provider, slot, state, s.clock, cfg.providerTtl)),
               pending := s1.pending[id := Sent(p, ch, s.clock)]), None)
      else
        var s2 := s1.(otp := StoreCode(s1.otp, slot, code, s.clock, cfg.codeTtl),
          issuedTo := s1.issuedTo[slot := Address(p, ch)]);
        if dispatched.None? then (s2, Some(Unavailable))
        else (s2.(pending := s2.pending[id := Sent(p, ch, s.clock)]), None)
  }

  function SendChannel(s: Accounts, id: Id, kind: Kind, ch: Channel, resend: bool, code: string,
      dispatched: Option<string>, cfg: Settings): (Accounts, Option<Error>)
  {
    var (s1, error) := Enter(s, id, kind, ch, cfg);
    if error.Some? then (s1, error)
    else
      var wait := WaitBeforeResend(s1, StateOf(s1.pending[id], ch).lastSent, cfg);
      if resend && wait > 0 then (s1, Some(RateLimited(wait)))
      else SendCode(s1, id, ch, code, dispatched, cfg)
  }

  predicate WellShaped(code: string) {
    |code| == 6 && forall i :: 0 <= i < 6 ==> '0' <= code[i] <= '9'
  }

  function Failed(s: Accounts, id: Id, ch: Channel): Accounts
    requires id in s.pending
  {
    var c := StateOf(s.pending[id], ch);
    s.(pending := s.pending[id := WithState(s.pending[id], ch, c.(attempts := c.attempts + 1))])
  }

  function Stamped(s: Accounts, id: Id, ch: Channel): Accounts
    requires id in s.pending
  {
    s.(pending := s.pending[id := WithState(s.pending[id], ch,
      StateOf(s.pending[id], ch).(verifiedAt := Some(s.clock)))])
  }

  /** What the SMS provider says of a code it checks itself. */
  datatype ProviderAnswer = Right | Wrong | Down

  /** `_verify_msg91_phone_otp` */
  function VerifyWithProvider(s: Accounts, id: Id, answer: ProviderAnswer): (Accounts, Option<Error>)
    requires id in s.pending
  {
    var slot := Slot(id, Phone);
    var state := Redis.Get(s.otp.provider, slot, s.clock);
    if state.None? then (Failed(s, id, Phone), Some(Unauthorized))
    else if state.value.phone == "" || state.value.requestId == "" then
      (Failed(s, id, Phone).(otp := ClearSlot(s.otp, slot)), Some(Unauthorized))
    else if state.value.phone != Address(s.pending[id], Phone) then (Failed(s, id, Phone), Some(Conflict))
    else match answer
      case Wrong => (Failed(s, id, Phone), Some(Unauthorized))
      case Down => (s, Some(Unavailable))
      case Right => (Stamped(s, id, Phone).(otp := ClearSlot(s.otp, slot)), None)
  }

  /** `_verify_channel_otp` */
  function CheckCode(s: Accounts, id: Id, ch: Channel, code: string, answer: ProviderAnswer,
      cfg: Settings): (Accounts, Option<Error>)
    requires id in s.pending
  {
    var c := StateOf(s.pending[id], ch);
    if c.attempts >= cfg.maxAttempts || !WellShaped(code) then (s, Some(Unauthorized))
    else if c.verifiedAt.Some? then (s, None)
    else if ch == Phone && cfg.msg91 then VerifyWithProvider(s, id, answer)
    else
      var (otp, ok) := VerifyCode(s.otp, Slot(id, ch), code, s.clock);
      if ok then (Stamped(s, id, ch).(otp := otp), None) else (Failed(s, id, ch), Some(Unauthorized))
  }

  function VerifyChannel(s: Accounts, id: Id, kind: Kind, ch: Channel, code: string,
      answer: ProviderAnswer, cfg: Settings): (Accounts, Option<Error>)
  {
    var (s1, error) := Enter(s, id, kind, ch, cfg);
    if error.Some? then (s1, error) else CheckCode(s1, id, ch, code, answer, cfg)
  }

  /** `start_google_phone_verification`: the stored code, if any, is not cleared. */
  ghost function SetGooglePhone(s: Accounts, id: Id, phone: string): (Accounts, Option<Error>) {
    var (s1, error) := Load(s, id, false);
    if error.Some? then (s1, error)
    else
      var p := s1.pending[id];
      if p.kind != Candidate then (s1, Some(Conflict))
      else if p.oauth.None? || p.oauth.value.provider != "google" || p.emailState.verifiedAt.None? then
        (s1, Some(Forbidden))
      else if UserByPhone(s1, phone).Some? || PendingByPhone(s1, Some(phone)) !in {None, Some(id)} then
        (s1, Some(Conflict))
      else (PhoneReplaced(s1, id, phone), None)
  }

  function PhoneReplaced(s: Accounts, id: Id, phone: string): Accounts
    requires id in s.pending
  {
    s.(pending := s.pending[id := s.pending[id].(phone := Some(phone),
      phoneState := s.pending[id].phoneState.(verifiedAt := None))],
       tracks := if id in s.tracks then s.tracks[id := s.tracks[id].(phoneSetAt := s.clock)] else s.tracks)
  }

  // ----- completion

  /** Inserting a user with this email and phone would violate uniqueness; deleted users count too. */
  predicate UserClash(s: Accounts, email: string, phone: Option<string>) {
    exists u :: u in s.users && (s.users[u].email == email || (phone.Some? && s.users[u].phone == phone))
  }

  function NewUser(p: Pending): User {
    User(p.email, p.phone, p.password, p.emailState.verifiedAt, if p.kind == Candidate then p.phoneState.verifiedAt
      else None, true, None)
  }

  /** The existing account a signup may fall back on when its own insert clashed. */
  ghost function ExistingAccount(s: Accounts, p: Pending): Option<Id> {
    if UserByEmail(s, p.email).Some? then UserByEmail(s, p.email)
    else if p.phone.Some? then UserByPhone(s, p.phone.value) else None
  }

  /** `_complete_pending_signup`: the user to sign in, newly created or already there. */
  ghost function Complete(s: Accounts, id: Id, kind: Kind): (Accounts, Result<Id, Error>) {
    var (s1, error) := Load(s, id, true);
    if error.Some? then (s1, Failure(error.value))
    else
      var p := s1.pending[id];
      if p.kind != kind then (s1, Failure(Conflict))
      else if p.completedUser.Some? then
        (s1, if Known(s1, p.completedUser.value) then Success(p.completedUser.value) else Failure(Conflict))
      else if p.emailState.verifiedAt.None? || (kind == Candidate && p.phoneState.verifiedAt.None?) then
        (s1, Failure(Conflict))
      else if UserClash(s1, p.email, p.phone) then
        var u := ExistingAccount(s1, p);
        if p.oauth.Some? || u.None? || s1.users[u.value].email != p.email
          || (p.phone.Some? && s1.users[u.value].phone != p.phone)
        then (s1, Failure(Conflict))
        else (Adopted(s1, id, u.value), Success(u.value))
      else if p.oauth.Some? && SocialKey(p.oauth.value.provider, p.oauth.value.account) in s1.social then
        (s1, Failure(IntegrityViolation))
      else (UserCreated(s1, id), Success(s1.next))
  }

  function Adopted(s: Accounts, id: Id, u: Id): Accounts
    requires id in s.pending
  {
    s.(pending := s.pending[id := s.pending[id].(completedUser := Some(u))], otp := ClearSession(s.otp, id))
  }

  /** The new user, its provider link if the signup came from one, and the session marked complete. */
  function UserCreated(s: Accounts, id: Id): Accounts
    requires id in s.pending
  {
    var p := s.pending[id];
    var t := if id in s.tracks then s.tracks[id] else Track(p.kind, s.clock, s.clock, 0);
    s.(users := s.users[s.next := NewUser(p)], next := s.next + 1,
       social := if p.oauth.Some? then s.social[SocialKey(p.oauth.value.provider, p.oauth.value.account) := s.next]
         else s.social,
       pending := s.pending[id := p.(completedUser := Some(s.next), oauth := None)],
       otp := ClearSession(s.otp, id),
       origins := s.origins[s.next := Origin(id, p.kind, t.emailSetAt, t.phoneSetAt)])
  }

  // ----- providers and passwords

  datatype GoogleResult = SignedIn(user: Id) | LinkingRequired | PhoneRequired(session: Id) | AuthFailed | Raised

  /** The database part of `complete_google_callback`, once Google has vouched for the profile. */
  ghost function GoogleCallback(s: Accounts, account: string, email: string, cfg: Settings): (Accounts, GoogleResult) {
    var key := SocialKey("google", account);
    if key in s.social then (s, if Usable(s, s.social[key]) then SignedIn(s.social[key]) else AuthFailed)
    else if UserByEmail(s, email).Some? then (s, LinkingRequired)
    else
      var existing := PendingByEmail(s, email);
      if existing.Some? && !Expired(s, existing.value) then
        (s, if s.pending[existing.value].oauth == Some(OAuth("google", account)) then PhoneRequired(existing.value)
          else Raised)
      else
        (GooglePending(s.(pending := if existing.Some? then s.pending - {existing.value} else s.pending), account,
          email, cfg), PhoneRequired(s.next))
  }

  function GooglePending(s: Accounts, account: string, email: string, cfg: Settings): Accounts {
    s.(pending := s.pending[s.next := Pending(email, None, None, Candidate, s.clock + cfg.pendingTtl,
          BLANK.(verifiedAt := Some(s.clock)), BLANK, Some(OAuth("google", account)), None)],
       next := s.next + 1, tracks := s.tracks[s.next := Track(Candidate, s.clock, s.clock, 1)])
  }

  /** The user already has an account with this provider. */
  predicate Linked(s: Accounts, u: Id, provider: string) {
    exists k :: k in s.social && k.provider == provider && s.social[k] == u
  }

  /** `oauth_callback`: sign in through a link, link by email, or create; nothing is kept if the account is unusable. */
  ghost function OAuthCallback(s: Accounts, provider: string, account: string,
      email: string): (Accounts, Result<Id, Error>)
  {
    var key := SocialKey(provider, account);
    if key in s.social then (s, if Usable(s, s.social[key]) then Success(s.social[key]) else Failure(Forbidden))
    else if UserByEmail(s, email).None? then
      if UserClash(s, email, None) then (s, Failure(IntegrityViolation))
      else (s.(users := s.users[s.next := User(email, None, None, Some(s.clock), None, true, None)], next := s.next + 1,
               social := s.social[key := s.next]), Success(s.next))
    else
      var u := UserByEmail(s, email).value;
      if Linked(s, u, provider) then (s, Failure(IntegrityViolation))
      else if !s.users[u].active then (s, Failure(Forbidden))
      else (s.(users := s.users[u := EmailConfirmed(s.users[u], s.clock)], social := s.social[key := u]), Success(u))
  }

  function EmailConfirmed(user: User, now: Time): User {
    if user.emailVerifiedAt.None? then user.(emailVerifiedAt := Some(now)) else user
  }

  function WithPassword(s: Accounts, u: Id, password: string): Accounts
    requires u in s.users
  {
    s.(users := s.users[u := s.users[u].(password := Some(PasswordHash(password)))])
  }

  function SetPassword(s: Accounts, u: Id, password: string): (Accounts, Option<Error>) {
    if !Known(s, u) then (s, Some(NotFound))
    else if s.users[u].password.Some? then (s, Some(Conflict))
    else (WithPassword(s, u, password), None)
  }

  function ChangePassword(s: Accounts, u: Id, current: string, password: string): (Accounts, Option<Error>) {
    if !Known(s, u) then (s, Some(NotFound))
    else if s.users[u].password.None? then (s, Some(Conflict))
    else if s.users[u].password.value != PasswordHash(current) then (s, Some(Unauthorized))
    else (WithPassword(s, u, password), None)
  }

  /** The user part of `reset_password`. */
  function ResetPassword(s: Accounts, u: Id, password: string): (Accounts, Option<Error>) {
    if !Usable(s, u) then (s, Some(Unauthorized)) else (WithPassword(s, u, password), None)
  }

  /** `profile` is the provider's account, or None when the exchange failed. */
  function LinkProvider(s: Accounts, u: Id, provider: string, profile: Option<string>): (Accounts, Option<Error>) {
    if provider == "google" then (s, Some(Forbidden))
    else if !Known(s, u) then (s, Some(NotFound))
    else if Linked(s, u, provider) then (s, Some(Conflict))
    else if profile.None? then (s, Some(Unauthorized))
    else if SocialKey(provider, profile.value) in s.social then (s, Some(Conflict))
    else (s.(social := s.social[SocialKey(provider, profile.value) := u]), None)
  }

  function LinksOf(s: Accounts, u: Id): set<SocialKey> {
    set k | k in s.social && s.social[k] == u
  }

  function UnlinkProvider(s: Accounts, u: Id, provider: string): (Accounts, Option<Error>) {
    if !Known(s, u) || !Linked(s, u, provider) then (s, Some(NotFound))
    else if s.users[u].password.None? && |LinksOf(s, u)| <= 1 then (s, Some(Conflict))
    else (s.(social := s.social - (set k | k in LinksOf(s, u) && k.provider == provider)), None)
  }

  ghost function Login(s: Accounts, email: string, password: string): Result<Id, Error> {
    var u := UserByEmail(s, email);
    if u.None? || s.users[u.value].password != Some(PasswordHash(password)) then Failure(Unauthorized)
    else if s.users[u.value].emailVerifiedAt.None? || !s.users[u.value].active then Failure(Forbidden)
    else Success(u.value)
  }

  // ----- changes made elsewhere in the application

  function SetActive(s: Accounts, u: Id, active: bool): Accounts {
    if u in s.users then s.(users := s.users[u := s.users[u].(active := active)]) else s
  }

  function SoftDelete(s: Accounts, u: Id): Accounts {
    if u in s.users then s.(users := s.users[u := s.users[u].(deletedAt := Some(s.clock))]) else s
  }
}
