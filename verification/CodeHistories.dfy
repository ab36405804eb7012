/** What a run of the service does to the stored codes is a history of the code store, so the laws of the store hold of
    the service. */
module CodeHistories {
  import opened Common
  import opened Redis
  import opened SignupOtp
  import opened Accounts
  import opened ServiceCalls
  import opened ServiceRuns
  import opened CodeAddresses
  import P = PasswordResets
  import ServiceSends

  /** The keys after some more events. */
  function Over(r: OtpKeys, es: seq<Event>): OtpKeys
    decreases |es|
  {
    if es == [] then r else Over(Apply(r, es[0]), es[1..])
  }

  lemma {:induction false} OverJoins(r: OtpKeys, es: seq<Event>, fs: seq<Event>)
    ensures Over(r, es + fs) == Over(Over(r, es), fs)
    decreases |es|
  {
    if es == [] {
      assert es + fs == fs;
    } else {
      assert (es + fs)[1..] == es[1..] + fs;
      OverJoins(Apply(r, es[0]), es[1..], fs);
    }
  }

  lemma OverOne(r: OtpKeys, e: Event)
    ensures Over(r, [e]) == Apply(r, e)
  {
    assert [e][1..] == [];
  }

  lemma {:induction false} AfterJoins(h: seq<Event>, es: seq<Event>)
    ensures After(h + es) == Over(After(h), es)
    decreases |es|
  {
    if es == [] {
      assert h + es == h;
    } else {
      assert h + es == (h + [es[0]]) + es[1..];
      assert (h + [es[0]])[..|h|] == h;
      AfterJoins(h + [es[0]], es[1..]);
    }
  }

  /** The event is the storing of the code this call was to send. */
  predicate Sends(call: Call, e: Event, cfg: Settings) {
    call.SendingCode? && e == Store(Slot(call.session, call.channel), call.code, cfg.codeTtl, e.at)
  }

  /** Events of one call: all at this moment, and a code is stored by sending it only. */
  predicate Within(es: seq<Event>, call: Call, now: Time, cfg: Settings) {
    forall i :: 0 <= i < |es| ==> es[i].at == now && (es[i].Store? ==> Sends(call, es[i], cfg))
  }

  // ----- the events of each call

  lemma ClearingEvents(otp: OtpKeys, clear: bool, id: Option<Id>, call: Call, now: Time, cfg: Settings)
      returns (es: seq<Event>)
    ensures Over(otp, es) == ClearIf(otp, clear, id) && Within(es, call, now, cfg)
  {
    if clear && id.Some? {
      OverOne(otp, ClearAll(id.value, now));
      return [ClearAll(id.value, now)];
    }
    return [];
  }

  lemma LoadEvents(s: Accounts, id: Id, allowCompleted: bool, call: Call, cfg: Settings) returns (es: seq<Event>)
    ensures Over(s.otp, es) == Load(s, id, allowCompleted).0.otp && Within(es, call, s.clock, cfg)
  {
    es := ClearingEvents(s.otp, Load(s, id, allowCompleted).1 == Some(Unauthorized), Some(id), call, s.clock, cfg);
    hide ClearSession;
  }

  lemma GatherEvents(s: Accounts, email: string, phone: Option<string>, call: Call, cfg: Settings)
      returns (es: seq<Event>)
    ensures Over(s.otp, es) == Gather(s, email, phone).otp && Within(es, call, s.clock, cfg)
  {
    var e, p := PendingByEmail(s, email), PendingByPhone(s, phone);
    hide PendingByEmail, PendingByPhone, ClearIf, Over, Lapsed;
    var first := ClearingEvents(s.otp, Lapsed(s, e), e, call, s.clock, cfg);
    var second := ClearingEvents(Over(s.otp, first), p != e && Lapsed(s, p), p, call, s.clock, cfg);
    OverJoins(s.otp, first, second);
    es := first + second;
  }

  lemma PrepareEvents(s: Accounts, email: string, phone: Option<string>, password: PasswordHash, kind: Kind,
      call: Call, cfg: Settings) returns (es: seq<Event>)
    ensures Over(s.otp, es) == Prepare(s, email, phone, password, kind, cfg).0.otp && Within(es, call, s.clock, cfg)
  {
    var first := GatherEvents(s, email, phone, call, cfg);
    var h := Gather(s, email, phone);
    var id := InHandRow(h);
    var again := Prepare(s, email, phone, password, kind, cfg).1.Success? && id.Some?;
    var second := ClearingEvents(h.otp, again, id, call, s.clock, cfg);
    OverJoins(s.otp, first, second);
    PreparedKeys(s, email, phone, password, kind, cfg);
    es := first + second;
    assert Within(es, call, s.clock, cfg);
    hide *;
  }

  function InHandRow(h: InHand): Option<Id> {
    if h.byEmail.Some? then h.byEmail else h.byPhone
  }

  /** A preparation that succeeds with a row in hand clears that session's codes; every other one leaves what the
      lookups left. */
  lemma PreparedKeys(s: Accounts, email: string, phone: Option<string>, password: PasswordHash, kind: Kind,
      cfg: Settings)
    ensures var (h, (t, result)) := (Gather(s, email, phone), Prepare(s, email, phone, password, kind, cfg));
      t.otp == ClearIf(h.otp, result.Success? && InHandRow(h).Some?, InHandRow(h))
  {
    var h := Gather(s, email, phone);
    if InHandRow(h).Some? {
      var id := InHandRow(h).value;
      RepreparedFacts(s.(otp := ClearSession(h.otp, id), pending := h.rows), id, email, phone, password, kind, cfg);
    }
    hide Gather, FreshRow, ClearSession, Reprepared, Blocks;
  }

  lemma SendCodeEvents(s: Accounts, id: Id, ch: Channel, code: string, dispatched: Option<string>,
      call: Call, cfg: Settings) returns (es: seq<Event>)
    requires id in s.pending && call.SendingCode? && call.session == id && call.channel == ch && call.code == code
    ensures Over(s.otp, es) == SendCode(s, id, ch, code, dispatched, cfg).0.otp && Within(es, call, s.clock, cfg)
  {
    var slot, now := Slot(id, ch), s.clock;
    var counted := CountSend(s.otp, slot, now);
    hide CountSend, StoreCode, Accepts, RetryAfter, Sent, Address, StateOf;
    if StateOf(s.pending[id], ch).verifiedAt.Some? {
      return [];
    }
    OverOne(s.otp, Send(slot, now));
    es := [Send(slot, now)];
    if Accepts(s.otp, slot, now, cfg.maxSends) && !(ch == Phone && cfg.msg91 && dispatched.None?) {
      var next := if ch == Phone && cfg.msg91
        then StoreProvider(slot, ProviderState(dispatched.value, Address(s.pending[id], ch)), cfg.providerTtl, now)
        else Store(slot, code, cfg.codeTtl, now);
      OverOne(counted, next);
      OverJoins(s.otp, es, [next]);
      es := es + [next];
    }
  }

  lemma OneOrNone(otp: OtpKeys, e: Event, call: Call, cfg: Settings)
    requires !e.Store?
    ensures Over(otp, []) == otp && Within([], call, e.at, cfg)
    ensures Over(otp, [e]) == Apply(otp, e) && Within([e], call, e.at, cfg)
  {
    OverOne(otp, e);
  }

  lemma ProviderEvents(s: Accounts, id: Id, answer: ProviderAnswer, call: Call, cfg: Settings) returns (es: seq<Event>)
    requires id in s.pending
    ensures Over(s.otp, es) == VerifyWithProvider(s, id, answer).0.otp && Within(es, call, s.clock, cfg)
  {
    var slot := Slot(id, Phone);
    ProviderKeys(s, id, answer);
    OneOrNone(s.otp, Clear(slot, s.clock), call, cfg);
    assert Apply(s.otp, Clear(slot, s.clock)) == ClearSlot(s.otp, slot);
    hide *;
    es := if VerifyWithProvider(s, id, answer).0.otp == s.otp then [] else [Clear(slot, s.clock)];
  }

  lemma ProviderKeys(s: Accounts, id: Id, answer: ProviderAnswer)
    requires id in s.pending
    ensures VerifyWithProvider(s, id, answer).0.otp == s.otp
      || VerifyWithProvider(s, id, answer).0.otp == ClearSlot(s.otp, Slot(id, Phone))
  {
    ProviderCases(s, id, answer);
    CountingFacts(s, id, Phone);
    hide *;
  }

  lemma CheckCodeEvents(s: Accounts, id: Id, ch: Channel, code: string, answer: ProviderAnswer,
      call: Call, cfg: Settings) returns (es: seq<Event>)
    requires id in s.pending
    ensures Over(s.otp, es) == CheckCode(s, id, ch, code, answer, cfg).0.otp && Within(es, call, s.clock, cfg)
  {
    var slot := Slot(id, ch);
    OneOrNone(s.otp, Verify(slot, code, s.clock), call, cfg);
    assert Apply(s.otp, Verify(slot, code, s.clock)) == VerifyCode(s.otp, slot, code, s.clock).0;
    CheckedKeys(s, id, ch, code, answer, cfg);
    es := ProviderEvents(s, id, answer, call, cfg);
    hide *;
    var otp := CheckCode(s, id, ch, code, answer, cfg).0.otp;
    es := if otp == s.otp then [] else if ch == Phone && cfg.msg91 then es else [Verify(slot, code, s.clock)];
  }

  lemma CheckedKeys(s: Accounts, id: Id, ch: Channel, code: string, answer: ProviderAnswer, cfg: Settings)
    requires id in s.pending
    ensures var otp := CheckCode(s, id, ch, code, answer, cfg).0.otp;
      || otp == s.otp
      || (if ch == Phone && cfg.msg91 then otp == VerifyWithProvider(s, id, answer).0.otp
          else otp == VerifyCode(s.otp, Slot(id, ch), code, s.clock).0)
  {
    CountingFacts(s, id, ch);
    hide WellShaped, VerifyWithProvider, VerifyCode, Failed, Stamped, SameAddresses, StateOf;
  }

  lemma CompleteEvents(s: Accounts, id: Id, kind: Kind, call: Call, cfg: Settings) returns (es: seq<Event>)
    ensures Over(s.otp, es) == Complete(s, id, kind).0.otp && Within(es, call, s.clock, cfg)
  {
    var t := Complete(s, id, kind).0;
    es := ClearingEvents(s.otp, t.otp != s.otp, Some(id), call, s.clock, cfg);
    hide UserClash, ExistingAccount, NewUser, ClearSession, Over;
  }

  /** Each call moves the keys as some events of the store do. */
  lemma CallEvents(s: Accounts, resets: P.Resets, call: Call, cfg: Settings) returns (es: seq<Event>)
    ensures Over(s.otp, es) == AccountsAfter(s, resets, call, cfg).otp && Within(es, call, s.clock, cfg)
  {
    es := [];
    hide Prepare, SendCode, CheckCode, Complete, UserByEmail, UserByPhone, PendingByEmail, PendingByPhone, Load;
    if !ChangesSessions(call) {
      if !call.Waiting? {
        OthersLeaveSessions(s, resets, call, cfg);
        hide AccountsAfter;
      }
    } else {
      match call
      case StartingSignup(email, phone, password) =>
        if UserByEmail(s, email).None? && UserByPhone(s, phone).None? {
          es := PrepareEvents(s, email, Some(phone), PasswordHash(password), Candidate, call, cfg);
        }
      case StartingOrganizationSignup(email, password) =>
        if UserByEmail(s, email).None? {
          es := PrepareEvents(s, email, None, PasswordHash(password), Organization, call, cfg);
        }
      case SendingCode(id, kind, ch, resend, code, dispatched) => es := SendingEvents(s, id, kind, ch, resend, code,
        dispatched, call, cfg);
      case VerifyingCode(id, kind, ch, code, answer) => es := VerifyingEvents(s, id, kind, ch, code, answer, call, cfg);
      case SettingGooglePhone(id, phone) => es := LoadEvents(s, id, false, call, cfg);
      case Completing(id, kind) => es := CompleteEvents(s, id, kind, call, cfg);
      case CallingBackGoogle(account, email) =>
    }
  }

  lemma SendingEvents(s: Accounts, id: Id, kind: Kind, ch: Channel, resend: bool, code: string,
      dispatched: Option<string>, call: Call, cfg: Settings) returns (es: seq<Event>)
    requires call.SendingCode? && call.session == id && call.channel == ch && call.code == code
    ensures Over(s.otp, es) == SendChannel(s, id, kind, ch, resend, code, dispatched, cfg).0.otp
      && Within(es, call, s.clock, cfg)
  {
    es := [];
    if !(ch == Phone && !cfg.phoneEnabled) {
      es := LoadEvents(s, id, false, call, cfg);
    }
    LoadGivesRow(s, id, false);
    hide SendCode, Load;
    var (t, error) := Enter(s, id, kind, ch, cfg);
    if error.None? && !(resend && WaitBeforeResend(t, StateOf(t.pending[id], ch).lastSent, cfg) > 0) {
      es := SendCodeEvents(s, id, ch, code, dispatched, call, cfg);
    }
  }

  lemma VerifyingEvents(s: Accounts, id: Id, kind: Kind, ch: Channel, code: string, answer: ProviderAnswer,
      call: Call, cfg: Settings) returns (es: seq<Event>)
    ensures Over(s.otp, es) == VerifyChannel(s, id, kind, ch, code, answer, cfg).0.otp && Within(es, call, s.clock, cfg)
  {
    es := [];
    if !(ch == Phone && !cfg.phoneEnabled) {
      es := LoadEvents(s, id, false, call, cfg);
    }
    LoadGivesRow(s, id, false);
    hide CheckCode, Load;
    if Enter(s, id, kind, ch, cfg).1.None? {
      es := CheckCodeEvents(s, id, ch, code, answer, call, cfg);
    }
  }

  lemma LoadGivesRow(s: Accounts, id: Id, allowCompleted: bool)
    ensures Load(s, id, allowCompleted).1.None? ==> Load(s, id, allowCompleted).0 == s && id in s.pending
  {
  }

  // ----- runs

  /** A history of the code store that ends in these keys by this time. */
  ghost predicate Records(h: seq<Event>, s: Accounts) {
    After(h) == s.otp && Chronological(h) && forall i :: 0 <= i < |h| ==> h[i].at <= s.clock
  }

  /** Every code stored since the first `n` events was sent by one of the calls. */
  ghost predicate StoresAreSends(h: seq<Event>, n: nat, calls: seq<Call>, cfg: Settings) {
    forall i :: n <= i < |h| && h[i].Store? ==> exists k :: 0 <= k < |calls| && Sends(calls[k], h[i], cfg)
  }

  lemma {:induction false} RunContinues(s: Service, h: seq<Event>, calls: seq<Call>, cfg: Settings)
      returns (g: seq<Event>)
    requires Records(h, s.accounts)
    ensures Records(g, Run(s, calls, cfg).accounts) && h <= g && StoresAreSends(g, |h|, calls, cfg)
    decreases |calls|
  {
    if calls == [] {
      return h;
    }
    var es := CallEvents(s.accounts, s.resets, calls[0], cfg);
    AfterJoins(h, es);
    AccountsFollow(s, calls[0], cfg);
    TimeGoesOn(s.accounts, s.resets, calls[0], cfg);
    hide Serve, AccountsAfter, After, Over, Sends;
    g := RunContinues(Serve(s, calls[0], cfg), h + es, calls[1..], cfg);
    forall i | |h| <= i < |g| && g[i].Store?
      ensures exists k :: 0 <= k < |calls| && Sends(calls[k], g[i], cfg)
    {
      if i < |h + es| {
        assert g[i] == es[i - |h|];
        assert Sends(calls[0], g[i], cfg);
      } else {
        var k :| 0 <= k < |calls[1..]| && Sends(calls[1..][k], g[i], cfg);
        assert Sends(calls[k + 1], g[i], cfg);
      }
    }
  }

  lemma TimeGoesOn(s: Accounts, resets: P.Resets, call: Call, cfg: Settings)
    ensures s.clock <= AccountsAfter(s, resets, call, cfg).clock
  {
    ServiceSends.CallCounts(s, resets, call, cfg);
  }

  /** Every run of the service leaves the stored codes as a history of the code store does, in which every stored code
      was sent by a call. */
  lemma RunHasHistory(clock: Time, calls: seq<Call>, cfg: Settings) returns (h: seq<Event>)
    ensures Records(h, Run(Empty(clock), calls, cfg).accounts) && StoresAreSends(h, 0, calls, cfg)
  {
    h := RunContinues(Empty(clock), [], calls, cfg);
  }

  /** Over every run: a channel checked without the provider gets its stamp from a code that a call sent to this session
      on this channel, that has not expired, and since which no code was stored, cleared or used there. */
  lemma StampedCodeWasSent(clock: Time, calls: seq<Call>, id: Id, kind: Kind, ch: Channel, code: string,
      answer: ProviderAnswer, cfg: Settings)
    returns (h: seq<Event>, i: nat, k: nat)
    requires !(ch == Phone && cfg.msg91)
    requires var s := Run(Empty(clock), calls, cfg).accounts;
      NewlyStamped(s, VerifyChannel(s, id, kind, ch, code, answer, cfg).0, id, ch)
    ensures var s := Run(Empty(clock), calls, cfg).accounts;
      Records(h, s) && i < |h| && StoredBy(h, i, Slot(id, ch), code, s.clock)
    ensures k < |calls| && Sends(calls[k], h[i], cfg)
  {
    var s := Run(Empty(clock), calls, cfg).accounts;
    h := RunHasHistory(clock, calls, cfg);
    StampComesFromCode(s, id, kind, ch, code, answer, cfg);
    hide Run, VerifyChannel, NewlyStamped, After, Sends;
    i := VerifiedCodeWasStored(h, Slot(id, ch), code, s.clock);
    k :| 0 <= k < |calls| && Sends(calls[k], h[i], cfg);
  }
}
