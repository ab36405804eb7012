/** What one account call does for the next: round trips, and where the code falls short of them. */
module AccountLaws {
  import opened Common
  import opened Redis
  import opened SignupOtp
  import opened Accounts
  import opened AccountInvariants
  import opened AccountSteps

  // ----- lookups

  lemma UserLookupExact(s: Accounts, u: Id)
    requires UsersDistinct(s.users) && Known(s, u)
    ensures UserByEmail(s, s.users[u].email) == Some(u)
    ensures s.users[u].phone.Some? ==> UserByPhone(s, s.users[u].phone.value) == Some(u)
  {
  }

  // ----- starting

  /** One lapsed session holds both the email and the phone of a new signup. */
  ghost predicate StaleBothWays(s: Accounts, email: string, phone: Option<string>) {
    Lapsed(s, PendingByEmail(s, email)) && PendingByPhone(s, phone) == PendingByEmail(s, email)
  }

  /** What the lookups leave in hand: rows that remain, except one that was found lapsed both ways. */
  lemma GatheredRows(s: Accounts, email: string, phone: Option<string>)
    ensures var h := Gather(s, email, phone);
      && (forall j :: j in h.rows ==> j in s.pending && h.rows[j] == s.pending[j])
      && (h.byEmail.Some? ==> h.byEmail.value in h.rows)
      && (h.byPhone.Some? ==> (h.byPhone.value in h.rows <==> !StaleBothWays(s, email, phone)))
      && (StaleBothWays(s, email, phone) ==> h.byEmail.None? && h.byPhone.Some?)
  {
    hide ClearIf;
  }

  /** The session a preparation announces exists afterwards, unless the one found was lapsed and held both addresses:
      then it has just been deleted, and its id is returned all the same. */
  lemma PreparedExists(s: Accounts, email: string, phone: Option<string>, password: PasswordHash,
      kind: Kind, cfg: Settings, m: nat)
    requires Valid(s, m) && Prepare(s, email, phone, password, kind, cfg).1.Success?
    ensures var (t, id) := Prepare(s, email, phone, password, kind, cfg);
      id.value in t.pending <==> !StaleBothWays(s, email, phone)
  {
    hide UsersDistinct, LinksDistinct, CodesBelow, UsersBelow, LinksExist;
    hide CodesFine, LivesFine, AllCanLogin, OriginsFine, RowsDistinct;
    GatheredRows(s, email, phone);
    hide RowFine, ClearSession, FreshRow, Gather, StaleBothWays;
  }

  /** Session `id` of `t` is like `p` but for its OAuth columns; every other session is one of `s`, as it was. */
  ghost predicate OnlyWritten(s: Accounts, t: Accounts, id: Id, p: Pending) {
    && id in t.pending && t.pending[id].(oauth := None) == p
    && forall j :: j in t.pending && j != id ==> j in s.pending && t.pending[j] == s.pending[j]
  }

  lemma RepreparedOnly(s: Accounts, rows: map<Id, Pending>, otp: OtpKeys, id: Id,
                       email: string, phone: Option<string>, password: PasswordHash, kind: Kind, cfg: Settings)
    requires id in rows && id in s.tracks && forall j :: j in rows ==> j in s.pending && rows[j] == s.pending[j]
    ensures OnlyWritten(s, Reprepared(s.(otp := otp, pending := rows), id, email, phone, password, kind, cfg), id,
                        FreshRow(s, email, phone, password, kind, cfg))
  {
  }

  lemma AddedOnly(s: Accounts, rows: map<Id, Pending>, otp: OtpKeys, p: Pending, track: Track)
    requires p.oauth.None? && forall j :: j in rows ==> j in s.pending && rows[j] == s.pending[j]
    ensures OnlyWritten(s, s.(otp := otp, pending := rows[s.next := p], next := s.next + 1,
      tracks := s.tracks[s.next := track]), s.next, p)
  {
  }

  /** Such a session is written afresh: these addresses and this password, nothing verified, nothing counted;
      every other session that remains is as it was. */
  lemma PreparedRow(s: Accounts, email: string, phone: Option<string>, password: PasswordHash,
      kind: Kind, cfg: Settings, m: nat)
    requires Valid(s, m) && Prepare(s, email, phone, password, kind, cfg).1.Success?
    requires !StaleBothWays(s, email, phone)
    ensures var (t, id) := Prepare(s, email, phone, password, kind, cfg);
      OnlyWritten(s, t, id.value, FreshRow(s, email, phone, password, kind, cfg))
  {
    GatheredRows(s, email, phone);
    assert forall i :: i in s.pending ==> i in s.tracks;
    var h, p := Gather(s, email, phone), FreshRow(s, email, phone, password, kind, cfg);
    hide Valid, OnlyWritten, FreshRow, Gather, Reprepared, StaleBothWays, ClearSession;
    if h.byEmail.Some? || h.byPhone.Some? {
      var id := if h.byEmail.Some? then h.byEmail.value else h.byPhone.value;
      RepreparedOnly(s, h.rows, ClearSession(h.otp, id), id, email, phone, password, kind, cfg);
    } else {
      FreshHasNoProvider(s, email, phone, password, kind, cfg);
      AddedOnly(s, h.rows, h.otp, p, Track(kind, s.clock, s.clock, 1));
    }
  }

  lemma FreshHasNoProvider(s: Accounts, email: string, phone: Option<string>, password: PasswordHash,
      kind: Kind, cfg: Settings)
    ensures FreshRow(s, email, phone, password, kind, cfg).oauth.None?
  {
  }

  /** ... and no code sent before is left over. */
  lemma PreparedCodes(s: Accounts, email: string, phone: Option<string>, password: PasswordHash,
      kind: Kind, cfg: Settings, m: nat)
    requires Valid(s, m) && Prepare(s, email, phone, password, kind, cfg).1.Success?
    ensures var (t, id) := Prepare(s, email, phone, password, kind, cfg);
      forall ch: Channel :: Slot(id.value, ch) !in t.otp.codes
  {
    GatherKeeps(s, email, phone, m);
    assert CodesBelow(s.otp.codes, s.next);
    hide Valid, Gather, ClearSession;
    var (t, id) := Prepare(s, email, phone, password, kind, cfg);
    ClearingLosesCodes(Gather(s, email, phone).otp, id.value);
  }

  /** A lapsed session, met again by the same person: the signup succeeds with the id of a session that is not there. */
  lemma StaleSessionReturned(cfg: Settings)
    ensures exists s :: Valid(s, cfg.maxAttempts) && StaleAnswer(s, cfg)
  {
    var s := StaleExample();
    assert Valid(s, cfg.maxAttempts);
    StaleExampleAnswers(cfg);
  }

  function StaleExample(): Accounts {
    Accounts(map[], map[0 := Pending("ada@x.io", Some("+4917"), Some(PasswordHash("old")), Candidate, 0, BLANK, BLANK,
      None, None)], map[],
      OtpKeys(map[], map[], map[]), 1, 1, map[0 := Track(Candidate, 0, 0, 1)], map[], map[])
  }

  ghost predicate StaleAnswer(s: Accounts, cfg: Settings) {
    var (t, answer) := StartSignup(s, "ada@x.io", "+4917", "new", cfg);
    answer == Success(0) && t.pending == map[]
      && SendChannel(t, 0, Candidate, Email, false, "123456", Some("id"), cfg).1 == Some(NotFound)
  }

  lemma StaleExampleAnswers(cfg: Settings)
    ensures StaleAnswer(StaleExample(), cfg)
  {
    var s := StaleExample();
    assert s.pending[0].email == "ada@x.io" && s.pending[0].phone == Some("+4917");
    assert PendingByEmail(s, "ada@x.io") == Some(0) && PendingByPhone(s, Some("+4917")) == Some(0);
    assert UserByEmail(s, "ada@x.io") == None && UserByPhone(s, "+4917") == None;
    assert Lapsed(s, Some(0));
  }

  // ----- codes

  /** Time passes and nothing else. */
  function Later(s: Accounts, now: Time): Accounts {
    s.(clock := now)
  }

  lemma CodeIsStored(s: Accounts, id: Id, kind: Kind, ch: Channel, code: string, sentVia: string, cfg: Settings)
    requires !(ch == Phone && cfg.msg91) && id in s.pending && StateOf(s.pending[id], ch).verifiedAt.None?
    requires SendChannel(s, id, kind, ch, false, code, Some(sentVia), cfg).1.None?
    ensures var t := SendChannel(s, id, kind, ch, false, code, Some(sentVia), cfg).0;
      && id in t.pending && t.pending[id] == Sent(s.pending[id], ch, s.clock) && t.pending[id].kind == kind
      && Slot(id, ch) in t.otp.codes
      && t.otp.codes[Slot(id, ch)] == Entry(CodeHash(code), Some(s.clock + cfg.codeTtl * SECOND))
      && (ch == Phone ==> cfg.phoneEnabled)
  {
    hide CountSend, Accepts, RetryAfter;
  }

  /** What verification does to a channel: the right code stamps it and is used up, any other costs an attempt and
      nothing else. */
  ghost predicate CodeDecides(t: Accounts, v: Accounts, error: Option<Error>, id: Id, ch: Channel, right: bool) {
    && id in t.pending && id in v.pending
    && (error.None? <==> right)
    && v == t.(pending := t.pending[id := v.pending[id]],
               otp := if right then t.otp.(codes := t.otp.codes - {Slot(id, ch)}) else t.otp)
    && v.pending[id] == WithState(t.pending[id], ch,
         if right then StateOf(t.pending[id], ch).(verifiedAt := Some(t.clock))
         else StateOf(t.pending[id], ch).(attempts := StateOf(t.pending[id], ch).attempts + 1))
    && Slot(id, ch) in t.otp.codes
  }

  lemma WaitingCodeDecides(t: Accounts, id: Id, kind: Kind, ch: Channel, code: string, entered: string,
      answer: ProviderAnswer, cfg: Settings)
    requires !(ch == Phone && cfg.msg91) && WellShaped(entered) && (ch == Phone ==> cfg.phoneEnabled)
    requires id in t.pending && t.pending[id].kind == kind && t.clock < t.pending[id].expiresAt
    requires StateOf(t.pending[id], ch).verifiedAt.None? && StateOf(t.pending[id], ch).attempts < cfg.maxAttempts
    requires Get(t.otp.codes, Slot(id, ch), t.clock) == Some(CodeHash(code))
    ensures var (v, error) := VerifyChannel(t, id, kind, ch, entered, answer, cfg);
      CodeDecides(t, v, error, id, ch, entered == code)
  {
    hide WellShaped;
  }

  /** The code that was sent, entered while it and the session last, verifies the channel, once and for all;
      any other well-shaped code costs an attempt and changes nothing else. */
  lemma SentCodeVerifies(s: Accounts, id: Id, kind: Kind, ch: Channel, code: string, entered: string, sentVia: string,
                         answer: ProviderAnswer, cfg: Settings, now: Time)
    requires !(ch == Phone && cfg.msg91) && WellShaped(entered)
    requires id in s.pending && StateOf(s.pending[id], ch).verifiedAt.None?
      && StateOf(s.pending[id], ch).attempts < cfg.maxAttempts
    requires SendChannel(s, id, kind, ch, false, code, Some(sentVia), cfg).1.None?
    requires s.clock <= now < s.clock + cfg.codeTtl * SECOND && now < s.pending[id].expiresAt
    ensures var t := Later(SendChannel(s, id, kind, ch, false, code, Some(sentVia), cfg).0, now);
      var (v, error) := VerifyChannel(t, id, kind, ch, entered, answer, cfg);
      CodeDecides(t, v, error, id, ch, entered == code)
  {
    CodeIsStored(s, id, kind, ch, code, sentVia, cfg);
    hide WellShaped, SendChannel, VerifyChannel, CodeDecides;
    WaitingCodeDecides(Later(SendChannel(s, id, kind, ch, false, code, Some(sentVia), cfg).0, now), id, kind, ch, code,
      entered, answer, cfg);
  }

  /** Sending again is refused, with the exact rest of the wait and without any effect, until the cooldown is over. */
  lemma ResendCoolsDown(s: Accounts, id: Id, kind: Kind, ch: Channel, code: string, via: string, resend: string,
                        dispatched: Option<string>, cfg: Settings, now: Time)
    requires id in s.pending && StateOf(s.pending[id], ch).verifiedAt.None? && now < s.pending[id].expiresAt
    requires SendChannel(s, id, kind, ch, false, code, Some(via), cfg).1.None? && s.clock <= now
    ensures var t := Later(SendChannel(s, id, kind, ch, false, code, Some(via), cfg).0, now);
      var again := SendChannel(t, id, kind, ch, true, resend, dispatched, cfg);
      if now < s.clock + cfg.cooldown * SECOND then
        again == (t, Some(RateLimited(cfg.cooldown - (now - s.clock) / SECOND)))
      else again == SendChannel(t, id, kind, ch, false, resend, dispatched, cfg)
  {
    var t := Later(SendChannel(s, id, kind, ch, false, code, Some(via), cfg).0, now);
    hide CountSend, Accepts, RetryAfter;
    assert id in t.pending && StateOf(t.pending[id], ch).lastSent == Some(s.clock)
      && t.pending[id].expiresAt == s.pending[id].expiresAt;
    assert Enter(t, id, kind, ch, cfg) == (t, None);
    hide SendCode;
  }

  // ----- codes that the SMS provider checks

  /** The request handed to the SMS provider is on record for the session's phone. */
  ghost predicate AtProvider(t: Accounts, id: Id, phone: string) {
    var state := Get(t.otp.provider, Slot(id, Phone), t.clock);
    state.Some? && state.value.requestId != "" && state.value.phone == phone && phone != ""
  }

  lemma SmsIsRecorded(s: Accounts, id: Id, request: string, code: string, cfg: Settings, now: Time)
    requires cfg.msg91 && id in s.pending && s.pending[id].phoneState.verifiedAt.None?
    requires SendChannel(s, id, Candidate, Phone, false, code, Some(request), cfg).1.None? && request != ""
    requires Address(s.pending[id], Phone) != "" && s.clock <= now < s.clock + cfg.providerTtl * SECOND
    ensures var t := Later(SendChannel(s, id, Candidate, Phone, false, code, Some(request), cfg).0, now);
      id in t.pending && t.pending[id] == Sent(s.pending[id], Phone, s.clock)
        && AtProvider(t, id, Address(s.pending[id], Phone))
  {
    hide CountSend, Accepts, RetryAfter, Sent;
  }

  /** What the provider says decides: right verifies, wrong costs an attempt, an outage changes nothing.
      But a request on record for another phone is a conflict and costs an attempt, whatever the provider would say. */
  lemma ProviderDecides(t: Accounts, id: Id, recorded: string, code: string, answer: ProviderAnswer, cfg: Settings)
    requires cfg.msg91 && cfg.phoneEnabled && WellShaped(code) && AtProvider(t, id, recorded)
    requires id in t.pending && t.pending[id].kind == Candidate && t.clock < t.pending[id].expiresAt
    requires t.pending[id].phoneState.verifiedAt.None? && t.pending[id].phoneState.attempts < cfg.maxAttempts
    ensures var (v, error) := VerifyChannel(t, id, Candidate, Phone, code, answer, cfg);
      && id in v.pending
      && (error.None? <==> recorded == Address(t.pending[id], Phone) && answer == Right)
      && (v.pending[id].phoneState.verifiedAt.Some? <==> error.None?)
      && v.pending[id].phoneState.attempts == t.pending[id].phoneState.attempts +
           (if error.None? || (recorded == Address(t.pending[id], Phone) && answer == Down) then 0 else 1)
      && v.pending == t.pending[id := t.pending[id].(phoneState := v.pending[id].phoneState)]
      && (error.None? ==> Slot(id, Phone) !in v.otp.provider)
  {
    hide WellShaped;
  }

  /** From the sending of the SMS to the entering of its code, with time passing in between: the provider's word
      decides, and an accepted code ends the request. */
  lemma SentSmsVerifies(s: Accounts, id: Id, request: string, unused: string, entered: string, answer: ProviderAnswer,
      cfg: Settings, now: Time)
    requires cfg.msg91 && WellShaped(entered) && request != "" && id in s.pending && Address(s.pending[id], Phone) != ""
    requires s.pending[id].phoneState.verifiedAt.None? && s.pending[id].phoneState.attempts < cfg.maxAttempts
    requires SendChannel(s, id, Candidate, Phone, false, unused, Some(request), cfg).1.None?
    requires s.clock <= now < s.clock + cfg.providerTtl * SECOND && now < s.pending[id].expiresAt
    ensures var t := Later(SendChannel(s, id, Candidate, Phone, false, unused, Some(request), cfg).0, now);
      var (v, error) := VerifyChannel(t, id, Candidate, Phone, entered, answer, cfg);
      && (error.None? <==> answer == Right)
      && id in v.pending && v.pending[id].phone == s.pending[id].phone
      && v.pending[id].phoneState.verifiedAt == (if answer == Right then Some(now) else None)
      && v.pending[id].phoneState.attempts == s.pending[id].phoneState.attempts + (if answer == Wrong then 1 else 0)
      && (answer == Right ==> Slot(id, Phone) !in v.otp.provider)
  {
    var t := Later(SendChannel(s, id, Candidate, Phone, false, unused, Some(request), cfg).0, now);
    SmsIsRecorded(s, id, request, unused, cfg, now);
    SentByCandidate(s, id, unused, request, cfg);
    assert t.pending[id].phone == s.pending[id].phone && t.pending[id].kind == Candidate;
    hide WellShaped, SendChannel, VerifyChannel, AtProvider;
    ProviderDecides(t, id, Address(s.pending[id], Phone), entered, answer, cfg);
  }

  lemma SentByCandidate(s: Accounts, id: Id, code: string, request: string, cfg: Settings)
    requires id in s.pending && SendChannel(s, id, Candidate, Phone, false, code, Some(request), cfg).1.None?
    ensures s.pending[id].kind == Candidate && cfg.phoneEnabled
  {
    hide SendCode;
  }

  /** With codes checked by the SMS provider a swap of phones is caught: whatever is entered, and even where the
      provider finds it right, the new phone is not verified until a message has gone to it. */
  lemma SwappedPhoneIsCaught(s: Accounts, id: Id, recorded: string, phone: string, code: string, answer: ProviderAnswer,
      cfg: Settings, now: Time)
    requires cfg.msg91 && cfg.phoneEnabled && WellShaped(code) && id in s.pending && recorded != phone
    requires SetGooglePhone(s, id, phone).1.None? && s.clock <= now < s.pending[id].expiresAt
    requires s.pending[id].phoneState.attempts < cfg.maxAttempts && AtProvider(Later(s, now), id, recorded)
    ensures var (v, error) := VerifyChannel(Later(SetGooglePhone(s, id, phone).0, now), id, Candidate, Phone, code,
      answer, cfg);
      && error.Some? && id in v.pending && v.pending[id].phone == Some(phone)
      && v.pending[id].phoneState.verifiedAt.None?
  {
    var t := Later(SetGooglePhone(s, id, phone).0, now);
    PhoneReplacedFacts(s, id, phone);
    PhoneLeavesKeys(s, id, phone);
    hide SetGooglePhone, VerifyChannel, WellShaped;
    ProviderDecides(t, id, recorded, code, answer, cfg);
  }

  lemma PhoneLeavesKeys(s: Accounts, id: Id, phone: string)
    requires SetGooglePhone(s, id, phone).1.None?
    ensures SetGooglePhone(s, id, phone).0.otp == s.otp
  {
    hide UserByPhone, PendingByPhone;
  }

  /** Giving a Google session a phone keeps a phone code sent before: it belongs to the new phone only if that is the
      same phone. */
  lemma GooglePhoneKeepsCode(s: Accounts, id: Id, phone: string)
    requires SetGooglePhone(s, id, phone).1.None? && Slot(id, Phone) in s.otp.codes && Slot(id, Phone) in s.issuedTo
    requires id in s.pending && CodesMatch(id, s.pending[id], s.otp.codes, s.issuedTo)
    ensures var t := SetGooglePhone(s, id, phone).0;
      id in t.pending && (CodesMatch(id, t.pending[id], t.otp.codes, t.issuedTo) <==>
        Address(s.pending[id], Phone) == phone)
  {
    hide UserByPhone, PendingByPhone;
    var t := SetGooglePhone(s, id, phone).0;
    assert CodesMatch(id, s.pending[id], s.otp.codes, s.issuedTo);
    forall ch: Channel | Slot(id, ch) in t.otp.codes && Address(s.pending[id], Phone) == phone
      ensures Slot(id, ch) in t.issuedTo && t.issuedTo[Slot(id, ch)] == Address(t.pending[id], ch)
    {
      assert ch == Email || ch == Phone;
    }
  }

  /** So the code sent to the former phone, entered in time, stamps the new one. */
  lemma OldCodeStampsNewPhone(s: Accounts, id: Id, phone: string, code: string, answer: ProviderAnswer, cfg: Settings,
      now: Time)
    requires SetGooglePhone(s, id, phone).1.None? && id in s.pending && s.clock <= now < s.pending[id].expiresAt
    requires !cfg.msg91 && cfg.phoneEnabled && WellShaped(code) && s.pending[id].phoneState.attempts < cfg.maxAttempts
    requires Get(s.otp.codes, Slot(id, Phone), now) == Some(CodeHash(code))
    ensures var (v, error) := VerifyChannel(Later(SetGooglePhone(s, id, phone).0, now), id, Candidate, Phone, code,
      answer, cfg);
      && error.None? && id in v.pending && v.pending[id].phone == Some(phone)
      && v.pending[id].phoneState.verifiedAt == Some(now)
      && v.issuedTo == s.issuedTo
  {
    var t := Later(SetGooglePhone(s, id, phone).0, now);
    PhoneReplacedFacts(s, id, phone);
    hide SetGooglePhone, VerifyChannel, WellShaped;
    WaitingCodeDecides(t, id, Candidate, Phone, code, code, answer, cfg);
  }

  lemma PhoneReplacedFacts(s: Accounts, id: Id, phone: string)
    requires SetGooglePhone(s, id, phone).1.None? && id in s.pending
    ensures var t := SetGooglePhone(s, id, phone).0;
      && id in t.pending && t.pending[id].kind == Candidate && t.pending[id].expiresAt == s.pending[id].expiresAt
      && t.pending[id].phone == Some(phone) && t.pending[id].phoneState == s.pending[id].phoneState.(verifiedAt := None)
      && t.otp == s.otp && t.issuedTo == s.issuedTo
  {
    hide UserByPhone, PendingByPhone;
  }

  // ----- signing in

  /** Signing in works with the password on record and with no other. */
  lemma PasswordDecidesLogin(s: Accounts, u: Id, tried: string)
    requires UsersDistinct(s.users) && Usable(s, u) && s.users[u].emailVerifiedAt.Some?
    ensures Login(s, s.users[u].email, tried) == if s.users[u].password == Some(PasswordHash(tried)) then Success(u)
      else Failure(Unauthorized)
  {
    UserLookupExact(s, u);
  }

  /** A signup that creates a user makes exactly the account that was asked for: its addresses, and the password given
      at the start. */
  lemma CompletedCanLogin(s: Accounts, id: Id, kind: Kind, tried: string, m: nat)
    requires Valid(s, m) && id in s.pending && s.pending[id].completedUser.None?
    requires Complete(s, id, kind).1 == Success(s.next)
    ensures var (t, p) := (Complete(s, id, kind).0, s.pending[id]);
      && s.next !in s.users && t.users == s.users[s.next := t.users[s.next]]
      && t.users[s.next].phone == p.phone && UserByEmail(t, p.email) == Some(s.next)
      && Login(t, p.email, tried) == if p.password == Some(PasswordHash(tried)) then Success(s.next)
        else Failure(Unauthorized)
  {
    CompleteKeeps(s, id, kind, m);
    var t := Complete(s, id, kind).0;
    assert UsersDistinct(t.users) && UsersBelow(s.users, s.next);
    hide Valid, UsersDistinct, RowsDistinct;
    CreatedUser(s, id, kind);
    PasswordDecidesLogin(t, s.next, tried);
    UserLookupExact(t, s.next);
  }

  lemma CreatedUser(s: Accounts, id: Id, kind: Kind)
    requires UsersBelow(s.users, s.next) && id in s.pending && s.pending[id].completedUser.None?
    requires Complete(s, id, kind).1 == Success(s.next)
    ensures s.pending[id].emailState.verifiedAt.Some? && s.pending[id].kind == kind
    ensures Complete(s, id, kind).0 == UserCreated(s, id)
  {
    hide UserCreated, Adopted, UserClash;
  }

  /** The user is there with the session's addresses, the session is marked, and its codes are gone. */
  ghost predicate SettledOn(s: Accounts, t: Accounts, id: Id, u: Id)
    requires id in s.pending
  {
    && Known(t, u) && t.users[u].email == s.pending[id].email
    && (s.pending[id].phone.Some? ==> t.users[u].phone == s.pending[id].phone)
    && id in t.pending && t.pending[id].completedUser == Some(u)
    && (forall ch: Channel :: Slot(id, ch) !in t.otp.codes)
    && (u in s.users ==> t.users == s.users && t.social == s.social)
  }

  lemma AdoptedSettles(s: Accounts, id: Id, u: Id)
    requires id in s.pending && Known(s, u) && s.users[u].email == s.pending[id].email
    requires s.pending[id].phone.Some? ==> s.users[u].phone == s.pending[id].phone
    ensures SettledOn(s, Adopted(s, id, u), id, u)
  {
    ClearingLosesCodes(s.otp, id);
    hide ClearSession;
  }

  lemma CreatedSettles(s: Accounts, id: Id)
    requires id in s.pending && s.next !in s.users
    ensures SettledOn(s, UserCreated(s, id), id, s.next)
  {
    ClearingLosesCodes(s.otp, id);
    hide ClearSession;
  }

  /** Whoever an open session signs in, newly created or found, has the session's addresses. */
  lemma CompletedUserMatches(s: Accounts, id: Id, kind: Kind, m: nat)
    requires Valid(s, m) && id in s.pending && s.pending[id].completedUser.None?
    requires Complete(s, id, kind).1.Success?
    ensures SettledOn(s, Complete(s, id, kind).0, id, Complete(s, id, kind).1.value)
  {
    assert s.next !in s.users;
    hide Valid, SettledOn, UserClash, Adopted, UserCreated, ClearSession, UserByEmail, UserByPhone;
    var p := s.pending[id];
    if UserClash(s, p.email, p.phone) {
      var u := ExistingAccount(s, p);
      ExistingKnown(s, p);
      AdoptedSettles(s, id, u.value);
    } else {
      CreatedSettles(s, id);
    }
  }

  lemma ExistingKnown(s: Accounts, p: Pending)
    ensures ExistingAccount(s, p).Some? ==> Known(s, ExistingAccount(s, p).value)
  {
  }

  /** The user signs in with this password and with no other. */
  ghost predicate SignsInOnlyWith(s: Accounts, u: Id, email: string, password: string) {
    forall tried :: Login(s, email, tried) == if tried == password then Success(u) else Failure(Unauthorized)
  }

  lemma NewPasswordOnRecord(s: Accounts, u: Id, password: string, m: nat)
    requires Valid(s, m) && Usable(s, u) && s.users[u].emailVerifiedAt.Some?
    ensures SignsInOnlyWith(WithPassword(s, u, password), u, s.users[u].email, password)
  {
    WithPasswordKeeps(s, u, password, m);
    var t := WithPassword(s, u, password);
    assert UsersDistinct(t.users);
    hide Valid, UsersDistinct, Login;
    forall tried
      ensures Login(t, s.users[u].email, tried) == if tried == password then Success(u) else Failure(Unauthorized)
    {
      PasswordDecidesLogin(t, u, tried);
    }
  }

  /** When each of the three calls goes through, and that all come to the same update. */
  lemma PasswordCallsSet(s: Accounts, u: Id, current: string, password: string)
    requires Known(s, u)
    ensures SetPassword(s, u, password).1.None? <==> s.users[u].password.None?
    ensures ChangePassword(s, u, current, password).1.None? <==> s.users[u].password == Some(PasswordHash(current))
    ensures ResetPassword(s, u, password).1.None? <==> s.users[u].active
    ensures SetPassword(s, u, password).0 == if SetPassword(s, u, password).1.None? then WithPassword(s, u, password)
      else s
    ensures ChangePassword(s, u, current, password).0 ==
      if ChangePassword(s, u, current, password).1.None? then WithPassword(s, u, password) else s
    ensures ResetPassword(s, u, password).0 == if ResetPassword(s, u, password).1.None? then
      WithPassword(s, u, password) else s
  {
  }

  /** After a password is set, changed or reset the new one signs in and no other does; after a refusal sign-in is as
      before. */
  lemma NewPasswordOnly(s: Accounts, u: Id, current: string, password: string, m: nat)
    requires Valid(s, m) && Usable(s, u) && s.users[u].emailVerifiedAt.Some?
    ensures var (t, error) := SetPassword(s, u, password);
      if s.users[u].password.None? then error.None? && SignsInOnlyWith(t, u, s.users[u].email, password)
        else error.Some? && t == s
    ensures var (t, error) := ChangePassword(s, u, current, password);
      if s.users[u].password == Some(PasswordHash(current)) then
        error.None? && SignsInOnlyWith(t, u, s.users[u].email, password)
      else error.Some? && t == s
    ensures var (t, error) := ResetPassword(s, u, password);
      error.None? && SignsInOnlyWith(t, u, s.users[u].email, password)
  {
    PasswordCallsSet(s, u, current, password);
    NewPasswordOnRecord(s, u, password, m);
    hide Valid, SignsInOnlyWith, WithPassword, SetPassword, ChangePassword, ResetPassword;
  }

  /** Signing in through a provider settles who that provider account is: the next time it is the same user, and nothing
      changes. */
  lemma OAuthSettles(s: Accounts, provider: string, account: string, email: string, next: string)
    requires OAuthCallback(s, provider, account, email).1.Success?
    ensures var (t, u) := OAuthCallback(s, provider, account, email);
      && Usable(t, u.value) && OAuthCallback(t, provider, account, next) == (t, u)
      && (UserByEmail(s, email).Some? && SocialKey(provider, account) !in s.social ==>
        u.value == UserByEmail(s, email).value)
  {
    hide UserClash, Linked;
  }

  /** Unlinking what was just linked restores the links, and is refused exactly when it would leave the user without a
      way in. */
  lemma UnlinkUndoesLink(s: Accounts, u: Id, provider: string, account: string)
    requires LinkProvider(s, u, provider, Some(account)).1.None?
    ensures var t := LinkProvider(s, u, provider, Some(account)).0;
      && (UnlinkProvider(t, u, provider).1.None? <==> HasLogin(u, s.users[u], s.social))
      && UnlinkProvider(t, u, provider).0 == if HasLogin(u, s.users[u], s.social) then s else t
  {
    var key := SocialKey(provider, account);
    var t := LinkProvider(s, u, provider, Some(account)).0;
    assert key in LinksOf(t, u) && Linked(t, u, provider);
    assert LinksOf(t, u) == LinksOf(s, u) + {key};
    assert HasLogin(u, s.users[u], s.social) <==> s.users[u].password.Some? || LinksOf(s, u) != {} by {
      if k :| k in s.social && s.social[k] == u {
        assert k in LinksOf(s, u);
      }
      if LinksOf(s, u) != {} {
        var k :| k in LinksOf(s, u);
        assert k in s.social && s.social[k] == u;
      }
    }
    assert (set k | k in LinksOf(t, u) && k.provider == provider) == {key};
    assert t.social - {key} == s.social;
  }

  /** A Google signup, once complete, is a Google sign-in: the next callback of that account signs the new user in. */
  lemma GoogleSignupSignsIn(s: Accounts, id: Id, account: string, email: string, cfg: Settings, m: nat)
    requires Valid(s, m) && id in s.pending && s.pending[id].completedUser.None?
    requires s.pending[id].oauth == Some(OAuth("google", account))
    requires Complete(s, id, Candidate).1.Success?
    ensures var (t, u) := Complete(s, id, Candidate);
      u == Success(s.next) && GoogleCallback(t, account, email, cfg) == (t, SignedIn(s.next))
        && t.pending[id].oauth.None?
  {
    hide Valid, UserClash, ExistingAccount, ClearSession;
  }

  /** Google never takes over an account: its callback touches no user and no link and signs in linked users only,
      and completing a session that came from a provider signs in a new user or nobody. */
  lemma GoogleNeverTakesOver(s: Accounts, account: string, email: string, id: Id, kind: Kind, cfg: Settings)
    ensures var (t, result) := GoogleCallback(s, account, email, cfg);
      && t.users == s.users && t.social == s.social
      && (result.SignedIn? ==>
            SocialKey("google", account) in s.social && s.social[SocialKey("google", account)] == result.user)
    ensures Complete(s, id, kind).1.Success? && s.pending[id].oauth.Some? && s.pending[id].completedUser.None? ==>
      Complete(s, id, kind).1 == Success(s.next) && !UserClash(s, s.pending[id].email, s.pending[id].phone)
  {
    hide UserClash, ExistingAccount, ClearSession, UserByEmail, PendingByEmail;
  }

  /** Whoever signs in with this provider account, whatever email it reports, is this user. */
  ghost predicate ProviderSignsIn(s: Accounts, k: SocialKey, u: Id, cfg: Settings) {
    forall email ::
      if k.provider == "google" then GoogleCallback(s, k.account, email, cfg) == (s, SignedIn(u))
      else OAuthCallback(s, k.provider, k.account, email) == (s, Success(u))
  }

  /** The invariant that every user has a login is worth its name: a usable, verified user can sign in, with the
      password or a provider. */
  lemma EveryUserCanSignIn(s: Accounts, u: Id, cfg: Settings, m: nat)
    requires Valid(s, m) && Usable(s, u) && s.users[u].emailVerifiedAt.Some?
    ensures || (exists password :: Login(s, s.users[u].email, password) == Success(u))
            || (exists k :: ProviderSignsIn(s, k, u, cfg))
  {
    assert HasLogin(u, s.users[u], s.social) && UsersDistinct(s.users);
    hide Valid, UsersDistinct, Login;
    if s.users[u].password.Some? {
      var password := s.users[u].password.value.password;
      PasswordDecidesLogin(s, u, password);
      assert Login(s, s.users[u].email, password) == Success(u);
    } else {
      var k :| k in s.social && s.social[k] == u;
      assert ProviderSignsIn(s, k, u, cfg);
    }
  }
}
