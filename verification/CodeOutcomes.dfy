/** What sending and entering a code comes to, case by case: each answer, who pays for it, and what is left as it
    was. */
module CodeOutcomes {
  import opened Common
  import opened Redis
  import opened SignupOtp
  import opened Accounts
  import opened AccountLaws

  /** The channel is open for a call of this flow. */
  predicate Entered(s: Accounts, id: Id, kind: Kind, ch: Channel, cfg: Settings) {
    id in s.pending && s.clock < s.pending[id].expiresAt && s.pending[id].kind == kind
      && (ch == Phone ==> cfg.phoneEnabled)
  }

  /** How often the channel's address was asked for a code in the counting window that is still running. */
  function SendsCounted(s: Accounts, slot: Slot): nat {
    if Live(s.otp.rates, slot, s.clock) then s.otp.rates[slot].value else 0
  }

  lemma AcceptsBelowCap(s: Accounts, slot: Slot, cfg: Settings)
    ensures Accepts(s.otp, slot, s.clock, cfg.maxSends) <==> SendsCounted(s, slot) < cfg.maxSends
    ensures slot in CountSend(s.otp, slot, s.clock).rates
    ensures CountSend(s.otp, slot, s.clock).rates[slot].value == SendsCounted(s, slot) + 1
  {
  }

  /** The row records one more message, sent now, and nothing else has changed in it. */
  predicate OneMoreSent(p: Pending, q: Pending, ch: Channel, now: Time) {
    var (c, d) := (StateOf(p, ch), StateOf(q, ch));
    && d.sent == c.sent + 1 && d.lastSent == Some(now) && d.verifiedAt == c.verifiedAt && d.attempts == c.attempts
    && q == WithState(p, ch, d)
  }

  lemma SentIsOneMore(p: Pending, ch: Channel, now: Time)
    ensures OneMoreSent(p, Sent(p, ch, now), ch, now)
  {
  }

  /** A first send: to a verified channel nothing happens; past the cap, and when the delivery fails, the row is as it
      was, but the send is counted; otherwise the row records it. A code whose delivery failed waits all the same. */
  lemma SendingComesTo(s: Accounts, id: Id, kind: Kind, ch: Channel, code: string, dispatched: Option<string>,
      cfg: Settings)
    requires Entered(s, id, kind, ch, cfg)
    ensures var ((t, error), slot) := (SendChannel(s, id, kind, ch, false, code, dispatched, cfg), Slot(id, ch));
      && (StateOf(s.pending[id], ch).verifiedAt.Some? ==> (t, error) == (s, None))
      && (StateOf(s.pending[id], ch).verifiedAt.None? ==>
            && slot in t.otp.rates && t.otp.rates[slot].value == SendsCounted(s, slot) + 1
            && (SendsCounted(s, slot) >= cfg.maxSends ==>
                  error.Some? && error.value.RateLimited? && t == s.(otp := s.otp.(rates := t.otp.rates)))
            && (SendsCounted(s, slot) < cfg.maxSends && dispatched.None? ==>
                  error == Some(Unavailable) && t.pending == s.pending)
            && (SendsCounted(s, slot) < cfg.maxSends && dispatched.Some? ==>
                  error == None && id in t.pending && OneMoreSent(s.pending[id], t.pending[id], ch, s.clock)
                  && t.pending == s.pending[id := t.pending[id]]))
      && (StateOf(s.pending[id], ch).verifiedAt.None? && SendsCounted(s, slot) < cfg.maxSends
          && !(ch == Phone && cfg.msg91) ==>
            slot in t.otp.codes && t.otp.codes[slot] == Entry(CodeHash(code), Some(s.clock + cfg.codeTtl * SECOND))
            && slot in t.issuedTo && t.issuedTo[slot] == Address(s.pending[id], ch))
      && t.users == s.users && t.social == s.social
  {
    AcceptsBelowCap(s, Slot(id, ch), cfg);
    SentIsOneMore(s.pending[id], ch, s.clock);
    CountingKeepsCodes(s.otp, Slot(id, ch), s.clock);
    hide CountSend, Accepts, RetryAfter, Sent, OneMoreSent, SendsCounted, Address, StateOf, WaitBeforeResend;
  }

  /** Asking again is refused, with the exact rest of the wait and without effect, while the cooldown since the last
      message runs; otherwise, and when nothing was sent yet, it is a first send. */
  lemma ResendingComesTo(s: Accounts, id: Id, kind: Kind, ch: Channel, code: string, dispatched: Option<string>,
      cfg: Settings)
    requires Entered(s, id, kind, ch, cfg)
    requires var last := StateOf(s.pending[id], ch).lastSent; last.Some? ==> last.value <= s.clock
    ensures var last := StateOf(s.pending[id], ch).lastSent;
      SendChannel(s, id, kind, ch, true, code, dispatched, cfg) ==
        if last.Some? && s.clock < last.value + cfg.cooldown * SECOND then
          (s, Some(RateLimited(cfg.cooldown - (s.clock - last.value) / SECOND)))
        else SendChannel(s, id, kind, ch, false, code, dispatched, cfg)
  {
    hide SendCode;
  }

  lemma CountingKeepsCodes(otp: OtpKeys, slot: Slot, now: Time)
    ensures CountSend(otp, slot, now) == otp.(rates := CountSend(otp, slot, now).rates)
  {
  }

  /** The call costs the channel an attempt and changes nothing else in the tables. */
  predicate CostsAttempt(s: Accounts, t: Accounts, id: Id, ch: Channel) {
    && id in s.pending && id in t.pending
    && StateOf(t.pending[id], ch) ==
         StateOf(s.pending[id], ch).(attempts := StateOf(s.pending[id], ch).attempts + 1)
    && t == s.(pending := s.pending[id := WithState(s.pending[id], ch, StateOf(t.pending[id], ch))], otp := t.otp)
  }

  lemma FailingCosts(s: Accounts, id: Id, ch: Channel)
    requires id in s.pending
    ensures CostsAttempt(s, Failed(s, id, ch), id, ch) && Failed(s, id, ch).otp == s.otp
    ensures forall otp :: CostsAttempt(s, Failed(s, id, ch).(otp := otp), id, ch)
  {
  }

  /** Entering a code is free of charge and without effect once the attempts are used up, when it is not six digits, and
      on a verified channel; without a waiting code it costs an attempt. */
  lemma EnteringComesTo(s: Accounts, id: Id, kind: Kind, ch: Channel, code: string, answer: ProviderAnswer,
      cfg: Settings)
    requires Entered(s, id, kind, ch, cfg)
    ensures var ((t, error), c) := (VerifyChannel(s, id, kind, ch, code, answer, cfg), StateOf(s.pending[id], ch));
      && (c.attempts >= cfg.maxAttempts || !WellShaped(code) ==> (t, error) == (s, Some(Unauthorized)))
      && (c.attempts < cfg.maxAttempts && WellShaped(code) && c.verifiedAt.Some? ==> (t, error) == (s, None))
      && (c.attempts < cfg.maxAttempts && WellShaped(code) && c.verifiedAt.None? && !(ch == Phone && cfg.msg91)
          && !Live(s.otp.codes, Slot(id, ch), s.clock) ==>
            error == Some(Unauthorized) && CostsAttempt(s, t, id, ch) && t.otp == s.otp)
  {
    FailingCosts(s, id, ch);
    hide WellShaped, Failed, Stamped, StateOf, VerifyWithProvider, CostsAttempt;
  }

  /** What the provider has on record for the session: nothing, nothing usable, or a request for some phone. */
  datatype OnRecord = NoRequest | Unusable | RequestFor(phone: string)

  function RecordOf(s: Accounts, id: Id): OnRecord {
    var state := Get(s.otp.provider, Slot(id, Phone), s.clock);
    if state.None? then NoRequest
    else if state.value.phone == "" || state.value.requestId == "" then Unusable
    else RequestFor(state.value.phone)
  }

  /** Codes checked by the SMS provider: no request, an unusable one or one for another phone costs an attempt without
      asking the provider; an unusable one is dropped. */
  lemma ProviderEntryComesTo(s: Accounts, id: Id, kind: Kind, code: string, answer: ProviderAnswer, cfg: Settings)
    requires Entered(s, id, kind, Phone, cfg) && cfg.msg91 && WellShaped(code)
    requires s.pending[id].phoneState.verifiedAt.None? && s.pending[id].phoneState.attempts < cfg.maxAttempts
    ensures var ((t, error), record) := (VerifyChannel(s, id, kind, Phone, code, answer, cfg), RecordOf(s, id));
      var present := RequestFor(Address(s.pending[id], Phone));
      && (record.NoRequest? ==> error == Some(Unauthorized) && CostsAttempt(s, t, id, Phone) && t.otp == s.otp)
      && (record.Unusable? ==>
            error == Some(Unauthorized) && CostsAttempt(s, t, id, Phone) && Slot(id, Phone) !in t.otp.provider)
      && (record.RequestFor? && record != present ==>
            error == Some(Conflict) && CostsAttempt(s, t, id, Phone) && t.otp == s.otp)
      && (record == present && answer == Wrong ==>
            error == Some(Unauthorized) && CostsAttempt(s, t, id, Phone) && t.otp == s.otp)
      && (record == present && answer == Down ==> (t, error) == (s, Some(Unavailable)))
      && (record == present && answer == Right ==>
            error == None && id in t.pending && Slot(id, Phone) !in t.otp.provider
            && t.pending[id] == s.pending[id].(phoneState := s.pending[id].phoneState.(verifiedAt := Some(s.clock))))
  {
    FailingCosts(s, id, Phone);
    hide WellShaped, Failed, CostsAttempt;
  }
}
