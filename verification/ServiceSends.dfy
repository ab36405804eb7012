/** How many codes the service sends, over every run of calls. */
module ServiceSends {
  import opened Common
  import opened SignupOtp
  import opened Accounts
  import opened ServiceCalls
  import opened ServiceRuns
  import P = PasswordResets

  /** The call hands a code for this slot over for delivery, which may then fail. */
  predicate Delivers(s: Accounts, call: Call, slot: Slot, cfg: Settings) {
    && call.SendingCode? && Slot(call.session, call.channel) == slot
    && call.session in s.pending && StateOf(s.pending[call.session], call.channel).verifiedAt.None?
    && SendChannel(s, call.session, call.kind, call.channel, call.resend, call.code, call.dispatched, cfg).1 in {None,
      Some(Unavailable)}
  }

  /** Deliveries for the slot during [lo, lo + HOUR] over a run. */
  ghost function SentIn(s: Service, calls: seq<Call>, slot: Slot, lo: Time, cfg: Settings): nat
    decreases |calls|
  {
    if calls == [] then 0
    else
      var now := if Delivers(s.accounts, calls[0], slot, cfg) && lo <= s.accounts.clock <= lo + HOUR then 1 else 0;
      now + SentIn(Serve(s, calls[0], cfg), calls[1..], slot, lo, cfg)
  }

  /** What a call does to the send counters: one count on one slot, or nothing. */
  predicate CountsOnce(s: Accounts, t: Accounts, call: Call) {
    || t.otp.rates == s.otp.rates
    || (call.SendingCode? && t.otp.rates == CountSend(s.otp, Slot(call.session, call.channel), s.clock).rates)
  }

  lemma SendCounts(s: Accounts, id: Id, kind: Kind, ch: Channel, resend: bool, code: string, dispatched: Option<string>,
      cfg: Settings)
    ensures var (t, error) := SendChannel(s, id, kind, ch, resend, code, dispatched, cfg);
      && t.clock == s.clock
      && (t.otp.rates == s.otp.rates || t.otp.rates == CountSend(s.otp, Slot(id, ch), s.clock).rates)
      && (id in s.pending && StateOf(s.pending[id], ch).verifiedAt.None? && error in {None, Some(Unavailable)} ==>
            t.otp.rates == CountSend(s.otp, Slot(id, ch), s.clock).rates
              && Accepts(s.otp, Slot(id, ch), s.clock, cfg.maxSends))
  {
    LoadingKeepsCounters(s, id, false);
    hide Load, CountSend, Accepts, RetryAfter, Sent, StoreCode;
    CountingKeepsRest(s.otp, Slot(id, ch), code, s.clock, cfg.codeTtl);
  }

  lemma CountingKeepsRest(otp: OtpKeys, slot: Slot, code: string, now: Time, ttl: nat)
    ensures StoreCode(CountSend(otp, slot, now), slot, code, now, ttl).rates == CountSend(otp, slot, now).rates
  {
  }

  /** Counters and clock are as they were. */
  predicate CountersKept(s: Accounts, t: Accounts) {
    t.otp.rates == s.otp.rates && t.clock == s.clock
  }

  lemma ClearingKeepsCounters(otp: OtpKeys, id: Id, slot: Slot)
    ensures ClearSession(otp, id).rates == otp.rates && ClearSlot(otp, slot).rates == otp.rates
  {
  }

  lemma GatheringKeepsCounters(s: Accounts, email: string, phone: Option<string>)
    ensures Gather(s, email, phone).otp.rates == s.otp.rates
  {
    hide Lapsed, PendingByEmail, PendingByPhone;
  }

  lemma WritingKeepsCounters(s: Accounts, id: Id, email: string, phone: Option<string>, password: PasswordHash,
      kind: Kind, cfg: Settings)
    ensures CountersKept(s, Reprepared(s, id, email, phone, password, kind, cfg))
  {
    hide FreshRow;
  }

  lemma PreparingKeepsCounters(s: Accounts, email: string, phone: Option<string>, password: PasswordHash, kind: Kind,
      cfg: Settings)
    ensures CountersKept(s, Prepare(s, email, phone, password, kind, cfg).0)
  {
    var h := Gather(s, email, phone);
    GatheringKeepsCounters(s, email, phone);
    hide Gather, Blocks, FreshRow, ClearSession, Reprepared;
    if h.byEmail.Some? || h.byPhone.Some? {
      var id := if h.byEmail.Some? then h.byEmail.value else h.byPhone.value;
      ClearingKeepsCounters(h.otp, id, Slot(id, Email));
      WritingKeepsCounters(s.(otp := ClearSession(h.otp, id), pending := h.rows), id, email, phone, password, kind,
        cfg);
    }
  }

  lemma LoadingKeepsCounters(s: Accounts, id: Id, allowCompleted: bool)
    ensures CountersKept(s, Load(s, id, allowCompleted).0)
    ensures Load(s, id, allowCompleted).1.None? ==> Load(s, id, allowCompleted).0 == s && id in s.pending
    ensures Load(s, id, allowCompleted).1 in {None, Some(NotFound), Some(Unauthorized)}
  {
    ClearingKeepsCounters(s.otp, id, Slot(id, Email));
  }

  lemma StampingKeepsCounters(s: Accounts, id: Id, ch: Channel)
    requires id in s.pending
    ensures CountersKept(s, Failed(s, id, ch)) && Failed(s, id, ch).otp == s.otp
    ensures CountersKept(s, Stamped(s, id, ch)) && Stamped(s, id, ch).otp == s.otp
  {
    hide WithState;
  }

  lemma VerifyingKeepsCounters(s: Accounts, id: Id, kind: Kind, ch: Channel, code: string, answer: ProviderAnswer,
      cfg: Settings)
    ensures CountersKept(s, VerifyChannel(s, id, kind, ch, code, answer, cfg).0)
  {
    LoadingKeepsCounters(s, id, false);
    ClearingKeepsCounters(s.otp, id, Slot(id, Phone));
    if id in s.pending {
      StampingKeepsCounters(s, id, ch);
    }
    hide Load, WellShaped, ClearSlot, Failed, Stamped;
  }

  lemma PhoneKeepsCounters(s: Accounts, id: Id, phone: string)
    ensures CountersKept(s, SetGooglePhone(s, id, phone).0)
  {
    LoadingKeepsCounters(s, id, false);
    hide Load, UserByPhone, PendingByPhone;
  }

  lemma CompletingKeepsCounters(s: Accounts, id: Id, kind: Kind)
    ensures CountersKept(s, Complete(s, id, kind).0)
  {
    LoadingKeepsCounters(s, id, true);
    ClearingKeepsCounters(s.otp, id, Slot(id, Phone));
    hide Load, UserClash, ExistingAccount, NewUser, ClearSession;
  }

  lemma GoogleKeepsCounters(s: Accounts, account: string, email: string, cfg: Settings)
    ensures CountersKept(s, GoogleCallback(s, account, email, cfg).0)
  {
    hide UserByEmail, PendingByEmail;
  }

  lemma CallCounts(s: Accounts, resets: P.Resets, call: Call, cfg: Settings)
    ensures CountsOnce(s, AccountsAfter(s, resets, call, cfg), call)
    ensures !call.SendingCode? ==> AccountsAfter(s, resets, call, cfg).otp.rates == s.otp.rates
    ensures s.clock <= AccountsAfter(s, resets, call, cfg).clock
  {
    hide Prepare, SendChannel, VerifyChannel, SetGooglePhone, Complete, GoogleCallback, CountSend, UserByEmail,
      UserByPhone;
    match call
    case StartingSignup(email, phone, password) => PreparingKeepsCounters(s, email, Some(phone), PasswordHash(password),
      Candidate, cfg);
    case StartingOrganizationSignup(email, password) => PreparingKeepsCounters(s, email, None, PasswordHash(password),
      Organization, cfg);
    case SendingCode(id, kind, ch, resend, code, dispatched) => SendCounts(s, id, kind, ch, resend, code, dispatched,
      cfg);
    case VerifyingCode(id, kind, ch, code, answer) => VerifyingKeepsCounters(s, id, kind, ch, code, answer, cfg);
    case SettingGooglePhone(id, phone) => PhoneKeepsCounters(s, id, phone);
    case Completing(id, kind) => CompletingKeepsCounters(s, id, kind);
    case CallingBackGoogle(account, email) => GoogleKeepsCounters(s, account, email, cfg);
    case Waiting(_) =>
    case _ =>
      OthersLeaveSessions(s, resets, call, cfg);
      OthersKeepTime(s, resets, call, cfg);
  }

  /** The bound of the code store, carried along a run. */
  ghost predicate Bounded(s: Accounts, slot: Slot, accepted: nat, lo: Time, cfg: Settings) {
    && WindowBound(s.otp, slot, accepted, lo, cfg.maxSends)
    && (slot in s.otp.rates ==> s.otp.rates[slot].expiresAt.value - HOUR <= s.clock)
  }

  lemma CallKeepsBound(s: Service, call: Call, slot: Slot, accepted: nat, lo: Time, cfg: Settings)
    requires Bounded(s.accounts, slot, accepted, lo, cfg)
    ensures Bounded(Serve(s, call, cfg).accounts, slot,
              accepted + (if Delivers(s.accounts, call, slot, cfg) && lo <= s.accounts.clock <= lo + HOUR then 1
                else 0), lo, cfg)
  {
    var a := s.accounts;
    AccountsFollow(s, call, cfg);
    CallCounts(a, s.resets, call, cfg);
    var t := AccountsAfter(a, s.resets, call, cfg);
    if call.SendingCode? {
      SendCounts(a, call.session, call.kind, call.channel, call.resend, call.code, call.dispatched, cfg);
      SendKeepsBound(a.otp, slot, a.clock, accepted, lo, cfg.maxSends);
      if Slot(call.session, call.channel) != slot {
        OthersLeaveCounter(a.otp, Send(Slot(call.session, call.channel), a.clock), slot);
      }
    }
    hide Serve, AccountsAfter, SendChannel;
  }

  lemma {:induction false} RunStaysBounded(s: Service, calls: seq<Call>, slot: Slot, accepted: nat, lo: Time,
      cfg: Settings)
    requires Bounded(s.accounts, slot, accepted, lo, cfg)
    ensures accepted + SentIn(s, calls, slot, lo, cfg) <= 2 * cfg.maxSends
    decreases |calls|
  {
    if calls != [] {
      hide Serve, Delivers, Bounded;
      CallKeepsBound(s, calls[0], slot, accepted, lo, cfg);
      var more := if Delivers(s.accounts, calls[0], slot, cfg) && lo <= s.accounts.clock <= lo + HOUR then 1 else 0;
      RunStaysBounded(Serve(s, calls[0], cfg), calls[1..], slot, accepted + more, lo, cfg);
    }
  }

  /** Over every run of the service, whatever is called in between: for one session and channel, any interval of an hour
      sees at most twice the cap of codes handed over for delivery. */
  lemma SendsAreBounded(clock: Time, calls: seq<Call>, slot: Slot, lo: Time, cfg: Settings)
    ensures SentIn(Empty(clock), calls, slot, lo, cfg) <= 2 * cfg.maxSends
  {
    RunStaysBounded(Empty(clock), calls, slot, 0, lo, cfg);
  }
}
