/** To whom the waiting codes were sent: exactly when a code may end up vouching for another address, over every run of
    calls. */
module CodeAddresses {
  import opened Common
  import opened Redis
  import opened SignupOtp
  import opened Accounts
  import opened AccountInvariants
  import opened AccountLaws
  import opened AccountSteps
  import opened ServiceCalls
  import opened ServiceRuns
  import P = PasswordResets
  import SignupProgress

  /** The code waiting on this channel, if any, was issued for the session's present address. */
  predicate CodeMatches(s: Accounts, id: Id, ch: Channel)
    requires id in s.pending
  {
    Live(s.otp.codes, Slot(id, ch), s.clock) ==>
      Slot(id, ch) in s.issuedTo && s.issuedTo[Slot(id, ch)] == Address(s.pending[id], ch)
  }

  ghost predicate AllCodesMatch(s: Accounts) {
    forall id, ch: Channel :: id in s.pending ==> CodeMatches(s, id, ch)
  }

  /** The call gives a session another phone while a code sent to the former one is waiting. */
  ghost predicate SwapsPhone(s: Accounts, call: Call) {
    && call.SettingGooglePhone? && SetGooglePhone(s, call.session, call.phone).1.None?
    && call.session in s.pending && Live(s.otp.codes, Slot(call.session, Phone), s.clock)
    && Address(s.pending[call.session], Phone) != call.phone
  }

  // ----- what each call does to codes and addresses

  /** A code of `b` is for its session's address, or it was there in `a`, for the address the session still has. */
  predicate CodeCarried(a: Accounts, b: Accounts, id: Id, ch: Channel)
    requires id in b.pending && Slot(id, ch) in b.otp.codes
  {
    var slot := Slot(id, ch);
    || (slot in b.issuedTo && b.issuedTo[slot] == Address(b.pending[id], ch))
    || (id in a.pending && slot in a.otp.codes && a.otp.codes[slot] == b.otp.codes[slot]
      && Address(a.pending[id], ch) == Address(b.pending[id], ch)
        && (slot in a.issuedTo ==> slot in b.issuedTo && b.issuedTo[slot] == a.issuedTo[slot]))
  }

  ghost predicate Carried(a: Accounts, b: Accounts) {
    a.clock <= b.clock && forall id, ch: Channel :: id in b.pending && Slot(id, ch) in b.otp.codes ==>
      CodeCarried(a, b, id, ch)
  }

  lemma CarriedMatches(a: Accounts, b: Accounts)
    requires AllCodesMatch(a) && Carried(a, b)
    ensures AllCodesMatch(b)
  {
    forall id, ch: Channel | id in b.pending
      ensures CodeMatches(b, id, ch)
    {
      if Slot(id, ch) in b.otp.codes {
        assert CodeCarried(a, b, id, ch);
        if id in a.pending {
          assert CodeMatches(a, id, ch);
        }
      }
    }
  }

  /** Codes lost, rows lost, and rows rewritten at the same addresses. */
  lemma KeepingCarries(a: Accounts, b: Accounts)
    requires a.clock <= b.clock && b.issuedTo == a.issuedTo
    requires forall slot :: slot in b.otp.codes ==> slot in a.otp.codes && a.otp.codes[slot] == b.otp.codes[slot]
    requires forall id :: id in b.pending ==>
      id in a.pending && b.pending[id].email == a.pending[id].email && b.pending[id].phone == a.pending[id].phone
    ensures Carried(a, b)
  {
  }

  /** A row written anew has no codes. */
  lemma WritingCarries(a: Accounts, b: Accounts, id: Id)
    requires a.clock <= b.clock && b.issuedTo == a.issuedTo && forall ch: Channel :: Slot(id, ch) !in b.otp.codes
    requires forall slot :: slot in b.otp.codes ==> slot in a.otp.codes && a.otp.codes[slot] == b.otp.codes[slot]
    requires forall j :: j in b.pending && j != id ==> j in a.pending && b.pending[j] == a.pending[j]
    ensures Carried(a, b)
  {
  }

  /** Codes may go but not change. */
  ghost predicate OnlyLost(before: OtpKeys, after: OtpKeys) {
    forall slot :: slot in after.codes ==> slot in before.codes && before.codes[slot] == after.codes[slot]
  }

  lemma ClearingOnlyLoses(otp: OtpKeys, id: Id, slot: Slot, code: string, now: Time)
    ensures OnlyLost(otp, ClearSession(otp, id)) && OnlyLost(otp, ClearSlot(otp, slot))
      && OnlyLost(otp, VerifyCode(otp, slot, code, now).0)
  {
  }

  lemma LoadCarries(s: Accounts, id: Id, allowCompleted: bool)
    ensures Carried(s, Load(s, id, allowCompleted).0)
  {
    ClearingOnlyLoses(s.otp, id, Slot(id, Email), "", 0);
    hide ClearSession, Carried;
    KeepingCarries(s, Load(s, id, allowCompleted).0);
  }

  lemma GatherOnlyLoses(s: Accounts, email: string, phone: Option<string>)
    ensures OnlyLost(s.otp, Gather(s, email, phone).otp)
  {
    hide Lapsed, PendingByEmail, PendingByPhone;
  }

  lemma OnlyLostTwice(a: OtpKeys, b: OtpKeys, c: OtpKeys)
    requires OnlyLost(a, b) && OnlyLost(b, c)
    ensures OnlyLost(a, c)
  {
  }

  lemma FreshCarries(s: Accounts, h: InHand, p: Pending, track: Track)
    requires CodesBelow(s.otp.codes, s.next) && OnlyLost(s.otp, h.otp)
    requires forall j :: j in h.rows ==> j in s.pending && h.rows[j] == s.pending[j]
    ensures Carried(s, s.(otp := h.otp, pending := h.rows[s.next := p], next := s.next + 1,
      tracks := s.tracks[s.next := track]))
  {
    hide Carried;
    WritingCarries(s, s.(otp := h.otp, pending := h.rows[s.next := p], next := s.next + 1,
      tracks := s.tracks[s.next := track]), s.next);
  }

  lemma AgainCarries(s: Accounts, h: InHand, id: Id, email: string, phone: Option<string>, password: PasswordHash,
      kind: Kind, cfg: Settings)
    requires OnlyLost(s.otp, h.otp)
    requires forall j :: j in h.rows ==> j in s.pending && h.rows[j] == s.pending[j]
    ensures Carried(s, Reprepared(s.(otp := ClearSession(h.otp, id), pending := h.rows), id, email, phone, password,
      kind, cfg))
  {
    ClearingOnlyLoses(h.otp, id, Slot(id, Email), "", 0);
    ClearingLosesCodes(h.otp, id);
    OnlyLostTwice(s.otp, h.otp, ClearSession(h.otp, id));
    RepreparedFacts(s.(otp := ClearSession(h.otp, id), pending := h.rows), id, email, phone, password, kind, cfg);
    hide Carried, ClearSession, Reprepared;
    WritingCarries(s, Reprepared(s.(otp := ClearSession(h.otp, id), pending := h.rows), id, email, phone, password,
      kind, cfg), id);
  }

  lemma PrepareCarries(s: Accounts, email: string, phone: Option<string>, password: PasswordHash, kind: Kind,
      cfg: Settings)
    requires CodesBelow(s.otp.codes, s.next)
    ensures Carried(s, Prepare(s, email, phone, password, kind, cfg).0)
  {
    var h := Gather(s, email, phone);
    GatherOnlyLoses(s, email, phone);
    GatheredRows(s, email, phone);
    LosingCarries(s, h.otp);
    FreshCarries(s, h, FreshRow(s, email, phone, password, kind, cfg), Track(kind, s.clock, s.clock, 1));
    var id := if h.byEmail.Some? then h.byEmail.value else if h.byPhone.Some? then h.byPhone.value else 0;
    AgainCarries(s, h, id, email, phone, password, kind, cfg);
    hide Gather, FreshRow, ClearSession, Reprepared, StaleBothWays, Carried, Blocks, CodesBelow, OnlyLost;
  }

  lemma LosingCarries(s: Accounts, otp: OtpKeys)
    requires OnlyLost(s.otp, otp)
    ensures Carried(s, s.(otp := otp))
  {
    KeepingCarries(s, s.(otp := otp));
  }

  lemma RepreparedFacts(s: Accounts, id: Id, email: string, phone: Option<string>, password: PasswordHash, kind: Kind,
      cfg: Settings)
    ensures var t := Reprepared(s, id, email, phone, password, kind, cfg);
      && t.clock == s.clock && t.issuedTo == s.issuedTo && t.otp == s.otp
      && forall j :: j in t.pending && j != id ==> j in s.pending && t.pending[j] == s.pending[j]
  {
    hide FreshRow;
  }

  lemma SendChannelCarries(s: Accounts, id: Id, kind: Kind, ch: Channel, resend: bool, code: string,
      dispatched: Option<string>, cfg: Settings)
    ensures Carried(s, SendChannel(s, id, kind, ch, resend, code, dispatched, cfg).0)
  {
    LoadCarries(s, id, false);
    KeepingCarries(s, s);
    hide Carried, SendCode;
    if Enter(s, id, kind, ch, cfg).1.None? {
      SendCodeCarries(s, id, ch, code, dispatched, cfg);
    }
  }

  /** A code stored for the present address, or counters and provider state moved; then, perhaps, the row's counters. */
  lemma StoringCarries(s: Accounts, t: Accounts, id: Id, ch: Channel)
    requires id in s.pending && t.clock == s.clock && SameAddresses(s.pending, t.pending)
    requires forall slot :: slot in t.otp.codes && slot != Slot(id, ch) ==>
      slot in s.otp.codes && s.otp.codes[slot] == t.otp.codes[slot]
    requires t.issuedTo == s.issuedTo[Slot(id, ch) := Address(s.pending[id], ch)]
    ensures Carried(s, t)
  {
  }

  lemma SendCodeCarries(s: Accounts, id: Id, ch: Channel, code: string, dispatched: Option<string>, cfg: Settings)
    requires id in s.pending
    ensures Carried(s, SendCode(s, id, ch, code, dispatched, cfg).0)
  {
    var t := SendCode(s, id, ch, code, dispatched, cfg).0;
    SendCodeFacts(s, id, ch, code, dispatched, cfg);
    hide SendCode, Carried, SameAddresses, Address;
    if t.issuedTo == s.issuedTo && OnlyLost(s.otp, t.otp) {
      SameRowsCarry(s, t);
    } else {
      StoringCarries(s, t, id, ch);
    }
  }

  lemma SameRowsCarry(s: Accounts, t: Accounts)
    requires t.clock == s.clock && SameAddresses(s.pending, t.pending) && t.issuedTo == s.issuedTo
      && OnlyLost(s.otp, t.otp)
    ensures Carried(s, t)
  {
    KeepingCarries(s, t);
  }

  lemma SendCodeFacts(s: Accounts, id: Id, ch: Channel, code: string, dispatched: Option<string>, cfg: Settings)
    requires id in s.pending
    ensures var t := SendCode(s, id, ch, code, dispatched, cfg).0;
      && t.clock == s.clock && SameAddresses(s.pending, t.pending)
      && ((t.issuedTo == s.issuedTo && OnlyLost(s.otp, t.otp))
          || (t.issuedTo == s.issuedTo[Slot(id, ch) := Address(s.pending[id], ch)]
              && forall slot :: slot in t.otp.codes && slot != Slot(id, ch) ==>
                slot in s.otp.codes && s.otp.codes[slot] == t.otp.codes[slot]))
  {
    CountingStoresNothing(s.otp, Slot(id, ch), s.clock);
    StoringTouchesOne(CountSend(s.otp, Slot(id, ch), s.clock), Slot(id, ch), code, s.clock, cfg.codeTtl);
    SentStays(s, id, ch);
    hide Accepts, RetryAfter, Sent, Address, CountSend, StoreCode, StateOf, Redis.SetEx, SameAddresses;
  }

  lemma CountingStoresNothing(otp: OtpKeys, slot: Slot, now: Time)
    ensures CountSend(otp, slot, now).codes == otp.codes
  {
  }

  lemma StoringTouchesOne(otp: OtpKeys, slot: Slot, code: string, now: Time, ttl: nat)
    ensures var after := StoreCode(otp, slot, code, now, ttl);
      forall other :: other in after.codes && other != slot ==>
        other in otp.codes && otp.codes[other] == after.codes[other]
  {
  }

  lemma SentStays(s: Accounts, id: Id, ch: Channel)
    requires id in s.pending
    ensures SameAddresses(s.pending, s.pending)
      && SameAddresses(s.pending, s.pending[id := Sent(s.pending[id], ch, s.clock)])
  {
  }

  lemma CountingFacts(s: Accounts, id: Id, ch: Channel)
    requires id in s.pending
    ensures SameAddresses(s.pending, Failed(s, id, ch).pending) && SameAddresses(s.pending, Stamped(s, id, ch).pending)
    ensures var (f, g) := (Failed(s, id, ch), Stamped(s, id, ch));
      f.otp == s.otp && f.issuedTo == s.issuedTo && f.clock == s.clock && g.issuedTo == s.issuedTo && g.clock == s.clock
  {
  }

  /** The same sessions at the same addresses. */
  ghost predicate SameAddresses(before: map<Id, Pending>, after: map<Id, Pending>) {
    forall id :: id in after ==>
      id in before && after[id].email == before[id].email && after[id].phone == before[id].phone
  }

  lemma ProviderLoses(s: Accounts, id: Id, answer: ProviderAnswer)
    requires id in s.pending
    ensures var t := VerifyWithProvider(s, id, answer).0;
      OnlyLost(s.otp, t.otp) && t.issuedTo == s.issuedTo && t.clock == s.clock
  {
    ClearingOnlyLoses(s.otp, id, Slot(id, Phone), "", 0);
    CountingFacts(s, id, Phone);
    LosingNothing(s.otp);
    ProviderCases(s, id, answer);
    hide VerifyWithProvider, ClearSlot, Failed, Stamped, SameAddresses, OnlyLost;
  }

  lemma ProviderCases(s: Accounts, id: Id, answer: ProviderAnswer)
    requires id in s.pending
    ensures var (t, cleared) := (VerifyWithProvider(s, id, answer).0, ClearSlot(s.otp, Slot(id, Phone)));
      || t == s || t == Failed(s, id, Phone) || t == Failed(s, id, Phone).(otp := cleared)
      || t == Stamped(s, id, Phone).(otp := cleared)
  {
    hide ClearSlot, Failed, Stamped, Address, Redis.Get;
  }

  lemma CheckCodeLoses(s: Accounts, id: Id, ch: Channel, code: string, answer: ProviderAnswer, cfg: Settings)
    requires id in s.pending
    ensures var t := CheckCode(s, id, ch, code, answer, cfg).0;
      OnlyLost(s.otp, t.otp) && t.issuedTo == s.issuedTo && t.clock == s.clock
  {
    ClearingOnlyLoses(s.otp, id, Slot(id, ch), code, s.clock);
    CountingFacts(s, id, ch);
    LosingNothing(s.otp);
    ProviderLoses(s, id, answer);
    hide WellShaped, VerifyCode, VerifyWithProvider, Failed, Stamped, SameAddresses, OnlyLost, StateOf;
  }

  lemma LosingNothing(otp: OtpKeys)
    ensures OnlyLost(otp, otp)
  {
  }

  lemma CheckCodeCarries(s: Accounts, id: Id, ch: Channel, code: string, answer: ProviderAnswer, cfg: Settings)
    requires id in s.pending
    ensures Carried(s, CheckCode(s, id, ch, code, answer, cfg).0)
  {
    CheckCodeLoses(s, id, ch, code, answer, cfg);
    CountingFacts(s, id, ch);
    SignupProgress.CheckCodeOutcomes(s, id, ch, code, answer, cfg);
    hide CheckCode, Failed, Stamped, Carried;
    KeepingCarries(s, CheckCode(s, id, ch, code, answer, cfg).0);
  }

  lemma VerifyChannelCarries(s: Accounts, id: Id, kind: Kind, ch: Channel, code: string, answer: ProviderAnswer,
      cfg: Settings)
    ensures Carried(s, VerifyChannel(s, id, kind, ch, code, answer, cfg).0)
  {
    LoadCarries(s, id, false);
    KeepingCarries(s, s);
    hide Carried, CheckCode;
    if Enter(s, id, kind, ch, cfg).1.None? {
      CheckCodeCarries(s, id, ch, code, answer, cfg);
    }
  }

  lemma CompletingFacts(s: Accounts, id: Id, u: Id)
    requires id in s.pending
    ensures Carried(s, Adopted(s, id, u)) && Carried(s, UserCreated(s, id))
  {
    ClearingOnlyLoses(s.otp, id, Slot(id, Email), "", 0);
    hide NewUser, ClearSession, Carried;
    KeepingCarries(s, Adopted(s, id, u));
    KeepingCarries(s, UserCreated(s, id));
  }

  lemma CompleteCarries(s: Accounts, id: Id, kind: Kind)
    ensures Carried(s, Complete(s, id, kind).0)
  {
    LoadCarries(s, id, true);
    KeepingCarries(s, s);
    if Load(s, id, true).1.None? {
      var u := ExistingAccount(s, s.pending[id]);
      CompletingFacts(s, id, if u.Some? then u.value else 0);
    }
    hide UserClash, ExistingAccount, Adopted, UserCreated, Carried;
  }

  lemma GoogleCallbackCarries(s: Accounts, account: string, email: string, cfg: Settings)
    requires CodesBelow(s.otp.codes, s.next)
    ensures Carried(s, GoogleCallback(s, account, email, cfg).0)
  {
    hide UserByEmail, PendingByEmail;
    WritingCarries(s, GoogleCallback(s, account, email, cfg).0, s.next);
  }

  /** The one call that can break the match, and exactly when it does. */
  lemma SetGooglePhoneExactly(s: Accounts, id: Id, phone: string)
    requires AllCodesMatch(s)
    ensures AllCodesMatch(SetGooglePhone(s, id, phone).0) <==> !SwapsPhone(s, SettingGooglePhone(id, phone))
  {
    LoadCarries(s, id, false);
    if SetGooglePhone(s, id, phone).1.Some? {
      hide UserByPhone, PendingByPhone, Load;
      if Load(s, id, false).1.Some? {
        CarriedMatches(s, Load(s, id, false).0);
      } else {
        LoadKept(s, id);
      }
    } else {
      LoadKept(s, id);
      PhoneReplacedFacts(s, id, phone);
      OthersReplaced(s, id, phone);
      hide SetGooglePhone;
      var t := SetGooglePhone(s, id, phone).0;
      assert CodeMatches(s, id, Phone) && CodeMatches(s, id, Email);
      assert CodeMatches(t, id, Phone) <==> !SwapsPhone(s, SettingGooglePhone(id, phone));
      forall j, ch: Channel | j in t.pending && !(j == id && ch == Phone)
        ensures CodeMatches(t, j, ch)
      {
        assert CodeMatches(s, j, ch);
      }
    }
  }

  lemma LoadKept(s: Accounts, id: Id)
    requires Load(s, id, false).1.None?
    ensures Load(s, id, false).0 == s && id in s.pending
  {
  }

  lemma OthersReplaced(s: Accounts, id: Id, phone: string)
    requires SetGooglePhone(s, id, phone).1.None? && id in s.pending
    ensures var t := SetGooglePhone(s, id, phone).0;
      && t.clock == s.clock && t.pending.Keys == s.pending.Keys && t.pending[id].email == s.pending[id].email
      && forall j :: j in t.pending && j != id ==> t.pending[j] == s.pending[j]
  {
    hide UserByPhone, PendingByPhone;
  }

  /** Every call leaves all waiting codes for their sessions' addresses, except a swap of phones, which never does. */
  lemma CallMatchesExactly(s: Accounts, resets: P.Resets, call: Call, cfg: Settings)
    requires Valid(s, cfg.maxAttempts) && AllCodesMatch(s)
    ensures AllCodesMatch(AccountsAfter(s, resets, call, cfg)) <==> !SwapsPhone(s, call)
  {
    assert CodesBelow(s.otp.codes, s.next);
    hide Valid, AllCodesMatch, SetGooglePhone, CodesBelow, Carried;
    if call.SettingGooglePhone? {
      SetGooglePhoneExactly(s, call.session, call.phone);
    } else {
      CallCarries(s, resets, call, cfg);
      hide AccountsAfter;
      CarriedMatches(s, AccountsAfter(s, resets, call, cfg));
    }
  }

  lemma CallCarries(s: Accounts, resets: P.Resets, call: Call, cfg: Settings)
    requires CodesBelow(s.otp.codes, s.next) && !call.SettingGooglePhone?
    ensures Carried(s, AccountsAfter(s, resets, call, cfg))
  {
    KeepingCarries(s, s);
    if !ChangesSessions(call) {
      OthersCarry(s, resets, call, cfg);
    } else {
      hide Prepare, SendChannel, VerifyChannel, Complete, GoogleCallback, Carried, CodesBelow;
      match call
      case StartingSignup(email, phone, password) =>
        PrepareCarries(s, email, Some(phone), PasswordHash(password), Candidate, cfg);
      case StartingOrganizationSignup(email, password) =>
        PrepareCarries(s, email, None, PasswordHash(password), Organization, cfg);
      case SendingCode(id, kind, ch, resend, code, dispatched) =>
        SendChannelCarries(s, id, kind, ch, resend, code, dispatched, cfg);
      case VerifyingCode(id, kind, ch, code, answer) =>
        VerifyChannelCarries(s, id, kind, ch, code, answer, cfg);
      case Completing(id, kind) => CompleteCarries(s, id, kind);
      case CallingBackGoogle(account, email) => GoogleCallbackCarries(s, account, email, cfg);
    }
  }

  lemma OthersCarry(s: Accounts, resets: P.Resets, call: Call, cfg: Settings)
    requires !ChangesSessions(call)
    ensures Carried(s, AccountsAfter(s, resets, call, cfg))
  {
    var t := AccountsAfter(s, resets, call, cfg);
    if call.Waiting? {
      assert t == s.(clock := t.clock);
    } else {
      OthersLeaveSessions(s, resets, call, cfg);
      OthersKeepTime(s, resets, call, cfg);
    }
    hide AccountsAfter, Carried;
    KeepingCarries(s, t);
  }

  // ----- runs

  lemma {:induction false} RunGoesOn(s: Service, calls: seq<Call>, n: nat, cfg: Settings)
    requires n < |calls|
    ensures Run(s, calls[..n + 1], cfg) == Serve(Run(s, calls[..n], cfg), calls[n], cfg)
    decreases |calls|
  {
    hide Serve;
    if n == 0 {
      assert calls[..1][1..] == [] && calls[..0] == [];
    } else {
      assert calls[..n + 1][1..] == calls[1..][..n] && calls[..n][1..] == calls[1..][..n - 1];
      RunGoesOn(Serve(s, calls[0], cfg), calls[1..], n - 1, cfg);
    }
  }

  ghost predicate MatchesAfter(s: Service, calls: seq<Call>, n: nat, cfg: Settings)
    requires n <= |calls|
  {
    AllCodesMatch(Run(s, calls[..n], cfg).accounts)
  }

  ghost predicate SwapsAt(s: Service, calls: seq<Call>, n: nat, cfg: Settings)
    requires n < |calls|
  {
    SwapsPhone(Run(s, calls[..n], cfg).accounts, calls[n])
  }

  lemma StepOfRun(s: Service, calls: seq<Call>, n: nat, cfg: Settings)
    requires n < |calls| && Sound(s, cfg) && MatchesAfter(s, calls, n, cfg)
    ensures MatchesAfter(s, calls, n + 1, cfg) <==> !SwapsAt(s, calls, n, cfg)
  {
    RunKeepsSound(s, calls[..n], cfg);
    RunGoesOn(s, calls, n, cfg);
    var t := Run(s, calls[..n], cfg);
    assert Valid(t.accounts, cfg.maxAttempts);
    AccountsFollow(t, calls[n], cfg);
    hide Run, Serve, AccountsAfter, SwapsPhone, AllCodesMatch, Valid, Sound;
    CallMatchesExactly(t.accounts, t.resets, calls[n], cfg);
  }

  lemma {:induction false} MatchesUpTo(s: Service, calls: seq<Call>, n: nat, cfg: Settings)
    requires n <= |calls| && Sound(s, cfg) && AllCodesMatch(s.accounts)
    requires forall k :: 0 <= k < n ==> !SwapsAt(s, calls, k, cfg)
    ensures MatchesAfter(s, calls, n, cfg)
  {
    if n == 0 {
      assert calls[..0] == [];
    } else {
      MatchesUpTo(s, calls, n - 1, cfg);
      StepOfRun(s, calls, n - 1, cfg);
    }
  }

  /** Over every run, for sessions of any origin: all waiting codes are for their sessions' addresses at every moment,
      exactly when no call gives a session another phone while a code for the former one is waiting. */
  lemma CodesMatchExactlyWhen(clock: Time, calls: seq<Call>, cfg: Settings)
    ensures (forall n :: 0 <= n <= |calls| ==> MatchesAfter(Empty(clock), calls, n, cfg)) <==>
            (forall n :: 0 <= n < |calls| ==> !SwapsAt(Empty(clock), calls, n, cfg))
  {
    var s := Empty(clock);
    EmptyIsSound(clock, cfg);
    assert AllCodesMatch(s.accounts);
    hide MatchesAfter, SwapsAt, Sound, AllCodesMatch;
    if forall n :: 0 <= n < |calls| ==> !SwapsAt(s, calls, n, cfg) {
      forall n | 0 <= n <= |calls|
        ensures MatchesAfter(s, calls, n, cfg)
      {
        MatchesUpTo(s, calls, n, cfg);
      }
    }
    if forall n :: 0 <= n <= |calls| ==> MatchesAfter(s, calls, n, cfg) {
      forall n | 0 <= n < |calls|
        ensures !SwapsAt(s, calls, n, cfg)
      {
        StepOfRun(s, calls, n, cfg);
        assert MatchesAfter(s, calls, n, cfg) && MatchesAfter(s, calls, n + 1, cfg);
      }
    }
  }

  /** The channel gets its stamp from this call. */
  predicate NewlyStamped(s: Accounts, t: Accounts, id: Id, ch: Channel) {
    && id in s.pending && id in t.pending
    && StateOf(s.pending[id], ch).verifiedAt.None? && StateOf(t.pending[id], ch).verifiedAt.Some?
  }

  /** A stamp comes from the waiting code, and vouches for the session's address exactly when that code was issued for
      it. */
  lemma StampComesFromCode(s: Accounts, id: Id, kind: Kind, ch: Channel, code: string, answer: ProviderAnswer,
      cfg: Settings)
    requires !(ch == Phone && cfg.msg91)
    requires NewlyStamped(s, VerifyChannel(s, id, kind, ch, code, answer, cfg).0, id, ch)
    ensures Get(s.otp.codes, Slot(id, ch), s.clock) == Some(CodeHash(code))
    ensures Address(VerifyChannel(s, id, kind, ch, code, answer, cfg).0.pending[id], ch) == Address(s.pending[id], ch)
    ensures CodeMatches(s, id, ch) <==>
      Slot(id, ch) in s.issuedTo && s.issuedTo[Slot(id, ch)] == Address(s.pending[id], ch)
  {
    hide WellShaped, ClearSession;
  }

  /** A run in which this goes wrong: a Google signup, a code to one phone, another phone, the code: the other phone
      ends up verified, and the account created from it carries that phone. */
  lemma UnseenPhoneVerified(cfg: Settings)
    requires cfg.phoneEnabled && !cfg.msg91 && cfg.maxSends > 0 && cfg.maxAttempts > 0 && cfg.codeTtl > 0
      && cfg.pendingTtl > 0
    ensures var t := Run(Empty(0), SwappingRun(), cfg).accounts;
      && t.issuedTo == map[Slot(0, Phone) := "+491"]
      && 1 in t.users && t.users[1].phone == Some("+492") && t.users[1].phoneVerifiedAt.Some?
  {
    var s0 := Empty(0).accounts;
    var s1 := GooglePending(s0, "google-1", "ada@x.io", cfg);
    var s2 := PhoneReplaced(s1, 0, "+491");
    assert GoogleCallback(s0, "google-1", "ada@x.io", cfg).0 == s1;
    assert SetGooglePhone(s1, 0, "+491") == (s2, None) by {
      assert forall p :: PendingByPhone(s1, Some(p)) == None;
    }
    var (s3, sent) := SendChannel(s2, 0, Candidate, Phone, false, "123456", Some("sms"), cfg);
    FirstSend(s2, cfg);
    var s4 := PhoneReplaced(s3, 0, "+492");
    assert SetGooglePhone(s3, 0, "+492") == (s4, None) by {
      assert s3.pending.Keys == {0} && s3.pending[0].phone == Some("+491");
      assert PendingByPhone(s3, Some("+492")) == None;
    }
    WaitingCodeDecides(s4, 0, Candidate, Phone, "123456", "123456", Right, cfg);
    var s5 := VerifyChannel(s4, 0, Candidate, Phone, "123456", Right, cfg).0;
    hide VerifyChannel, SendChannel, SetGooglePhone, GoogleCallback;
    assert s5 == s4.(pending := s4.pending[0 := s5.pending[0]], otp := s5.otp);
    var s6 := Complete(s5, 0, Candidate).0;
    NewPhoneCompletes(s5);
    FollowRun(cfg, s1, s2, s3, s4, s5, s6);
  }

  lemma NewPhoneCompletes(s: Accounts)
    requires 0 in s.pending && s.pending[0].kind == Candidate && s.clock < s.pending[0].expiresAt
      && s.pending[0].completedUser.None?
    requires s.users == map[] && s.social == map[] && s.next == 1
    requires s.pending[0].emailState.verifiedAt.Some? && s.pending[0].phoneState.verifiedAt.Some?
      && s.pending[0].phone == Some("+492")
    ensures var t := Complete(s, 0, Candidate).0;
      1 in t.users && t.users[1].phone == Some("+492") && t.users[1].phoneVerifiedAt.Some? && t.issuedTo == s.issuedTo
  {
    hide ClearSession, ExistingAccount;
    assert !UserClash(s, s.pending[0].email, s.pending[0].phone);
  }

  function SwappingRun(): seq<Call> {
    [CallingBackGoogle("google-1", "ada@x.io"), SettingGooglePhone(0, "+491"),
     SendingCode(0, Candidate, Phone, false, "123456", Some("sms")), SettingGooglePhone(0, "+492"),
     VerifyingCode(0, Candidate, Phone, "123456", Right), Completing(0, Candidate)]
  }

  lemma FirstSend(s: Accounts, cfg: Settings)
    requires cfg.phoneEnabled && !cfg.msg91 && cfg.maxSends > 0 && cfg.codeTtl > 0
    requires s.pending.Keys == {0} && s.pending[0].kind == Candidate && s.clock < s.pending[0].expiresAt
    requires s.pending[0].phoneState.verifiedAt.None? && s.pending[0].phone == Some("+491")
    requires s.otp == OtpKeys(map[], map[], map[]) && s.issuedTo == map[]
    ensures var (t, error) := SendChannel(s, 0, Candidate, Phone, false, "123456", Some("sms"), cfg);
      && error.None? && t.issuedTo == map[Slot(0, Phone) := "+491"] && t.clock == s.clock && t.users == s.users
      && t.social == s.social
      && t.next == s.next && t.tracks == s.tracks && t.origins == s.origins
      && t.pending == s.pending[0 := Sent(s.pending[0], Phone, s.clock)]
      && Get(t.otp.codes, Slot(0, Phone), t.clock) == Some(CodeHash("123456"))
  {
  }

  /** The steps above are what the run does. */
  lemma FollowRun(cfg: Settings, s1: Accounts, s2: Accounts, s3: Accounts, s4: Accounts, s5: Accounts, s6: Accounts)
    requires s1 == GoogleCallback(Empty(0).accounts, "google-1", "ada@x.io", cfg).0
      && s2 == SetGooglePhone(s1, 0, "+491").0
    requires s3 == SendChannel(s2, 0, Candidate, Phone, false, "123456", Some("sms"), cfg).0
      && s4 == SetGooglePhone(s3, 0, "+492").0
    requires s5 == VerifyChannel(s4, 0, Candidate, Phone, "123456", Right, cfg).0 && s6 == Complete(s5, 0, Candidate).0
    ensures Run(Empty(0), SwappingRun(), cfg).accounts == s6
  {
    var t3 := FirstThree(cfg, s1, s2, s3);
    LastThree(t3, cfg, s4, s5, s6);
  }

  lemma FirstThree(cfg: Settings, s1: Accounts, s2: Accounts, s3: Accounts) returns (t: Service)
    requires s1 == GoogleCallback(Empty(0).accounts, "google-1", "ada@x.io", cfg).0
      && s2 == SetGooglePhone(s1, 0, "+491").0
    requires s3 == SendChannel(s2, 0, Candidate, Phone, false, "123456", Some("sms"), cfg).0
    ensures t.accounts == s3 && Run(Empty(0), SwappingRun(), cfg) == Run(t, SwappingRun()[3..], cfg)
  {
    var calls := SwappingRun();
    hide Serve, Run, GoogleCallback, SetGooglePhone, SendChannel;
    t := FirstOf(Empty(0), calls, cfg);
    t := FirstOf(t, calls[1..], cfg);
    assert calls[1..][1..] == calls[2..] && calls[2..][1..] == calls[3..];
    t := FirstOf(t, calls[2..], cfg);
  }

  lemma LastThree(s: Service, cfg: Settings, s4: Accounts, s5: Accounts, s6: Accounts)
    requires s4 == SetGooglePhone(s.accounts, 0, "+492").0
      && s5 == VerifyChannel(s4, 0, Candidate, Phone, "123456", Right, cfg).0
    requires s6 == Complete(s5, 0, Candidate).0
    ensures Run(s, SwappingRun()[3..], cfg).accounts == s6
  {
    var calls := SwappingRun()[3..];
    hide Serve, Run, SetGooglePhone, VerifyChannel, Complete;
    var t := FirstOf(s, calls, cfg);
    t := FirstOf(t, calls[1..], cfg);
    assert calls[1..][1..] == calls[2..] && calls[2..][1..] == [];
    t := FirstOf(t, calls[2..], cfg);
    EmptyRun(t, cfg);
  }

  lemma FirstOf(s: Service, calls: seq<Call>, cfg: Settings) returns (t: Service)
    requires calls != []
    ensures t.accounts == AccountsAfter(s.accounts, s.resets, calls[0], cfg)
      && Run(s, calls, cfg) == Run(t, calls[1..], cfg)
  {
    t := Serve(s, calls[0], cfg);
    AccountsFollow(s, calls[0], cfg);
    hide Serve, AccountsAfter;
  }

  lemma EmptyRun(s: Service, cfg: Settings)
    ensures Run(s, [], cfg) == s
  {
  }
}
