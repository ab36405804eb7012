/** Signup sessions do not reach into each other: a call about one leaves everything of the others alone. */
module SessionIsolation {
  import opened Common
  import opened SignupOtp
  import opened Accounts
  import opened CodeHistories
  import SignupProgress
  import Redis

  /** Everything of the other signup sessions is as it was: rows, codes, send counters, provider requests. */
  ghost predicate OthersAsTheyWere(s: Accounts, t: Accounts, id: Id) {
    && (forall j :: j != id ==>
          (j in t.pending <==> j in s.pending) && (j in s.pending ==> t.pending[j] == s.pending[j]))
    && (forall slot: Slot :: slot.session != id ==> SameKeys(s.otp, t.otp, slot))
  }

  predicate SameKeys(a: OtpKeys, b: OtpKeys, slot: Slot) {
    && (slot in b.codes <==> slot in a.codes) && (slot in a.codes ==> b.codes[slot] == a.codes[slot])
    && (slot in b.rates <==> slot in a.rates) && (slot in a.rates ==> b.rates[slot] == a.rates[slot])
    && (slot in b.provider <==> slot in a.provider) && (slot in a.provider ==> b.provider[slot] == a.provider[slot])
  }

  /** The atomic steps of the code store touch their own session only. */
  lemma StoreIsAimed(r: OtpKeys, id: Id, ch: Channel, code: string, state: ProviderState, now: Time, ttl: nat,
      slot: Slot)
    requires slot.session != id
    ensures SameKeys(r, ClearSession(r, id), slot) && SameKeys(r, ClearSlot(r, Slot(id, ch)), slot)
    ensures SameKeys(r, StoreCode(r, Slot(id, ch), code, now, ttl), slot)
    ensures SameKeys(r, VerifyCode(r, Slot(id, ch), code, now).0, slot)
    ensures SameKeys(r, CountSend(r, Slot(id, ch), now), slot)
    ensures SameKeys(r, r.(provider := Redis.SetEx(r.provider, Slot(id, ch), state, now, ttl)), slot)
  {
  }

  lemma LoadIsAimed(s: Accounts, id: Id, allowCompleted: bool)
    ensures OthersAsTheyWere(s, Load(s, id, allowCompleted).0, id)
    ensures Load(s, id, allowCompleted).1.None? ==> Load(s, id, allowCompleted).0 == s && id in s.pending
  {
  }

  lemma NothingMoved(s: Accounts, id: Id)
    ensures OthersAsTheyWere(s, s, id)
  {
  }

  lemma KeysMovedTwice(a: OtpKeys, b: OtpKeys, c: OtpKeys, slot: Slot)
    requires SameKeys(a, b, slot) && SameKeys(b, c, slot)
    ensures SameKeys(a, c, slot)
  {
  }

  /** One row and the keys of one session, written. */
  lemma WritingIsAimed(s: Accounts, t: Accounts, id: Id)
    requires t.pending == s.pending || (id in t.pending && t.pending == s.pending[id := t.pending[id]])
    requires forall slot: Slot :: slot.session != id ==> SameKeys(s.otp, t.otp, slot)
    ensures OthersAsTheyWere(s, t, id)
  {
    hide SameKeys;
  }

  /** What sending does to the keys: a count, and perhaps a code or a provider request. */
  ghost predicate SentKeys(a: OtpKeys, b: OtpKeys, id: Id, ch: Channel, code: string, now: Time, cfg: Settings) {
    var (slot, counted) := (Slot(id, ch), CountSend(a, Slot(id, ch), now));
    || b == a || b == counted || b == StoreCode(counted, slot, code, now, cfg.codeTtl)
    || exists state :: b == counted.(provider := Redis.SetEx(counted.provider, slot, state, now, cfg.providerTtl))
  }

  lemma SendingMoves(s: Accounts, id: Id, ch: Channel, code: string, dispatched: Option<string>, cfg: Settings)
    requires id in s.pending
    ensures var t := SendCode(s, id, ch, code, dispatched, cfg).0;
      && (t.pending == s.pending || (id in t.pending && t.pending == s.pending[id := t.pending[id]]))
      && SentKeys(s.otp, t.otp, id, ch, code, s.clock, cfg)
  {
    hide CountSend, StoreCode, Accepts, RetryAfter, Sent, Address, StateOf, Redis.SetEx;
  }

  lemma SentKeysAreAimed(a: OtpKeys, b: OtpKeys, id: Id, ch: Channel, code: string, now: Time, cfg: Settings,
      slot: Slot)
    requires SentKeys(a, b, id, ch, code, now, cfg) && slot.session != id
    ensures SameKeys(a, b, slot)
  {
    var none := ProviderState("", "");
    var counted := CountSend(a, Slot(id, ch), now);
    StoreIsAimed(a, id, ch, code, none, now, 0, slot);
    StoreIsAimed(counted, id, ch, code, none, now, cfg.codeTtl, slot);
    if state :| b == counted.(provider := Redis.SetEx(counted.provider, Slot(id, ch), state, now, cfg.providerTtl)) {
      StoreIsAimed(counted, id, ch, code, state, now, cfg.providerTtl, slot);
      hide *;
      KeysMovedTwice(a, counted, b, slot);
    } else if b == StoreCode(counted, Slot(id, ch), code, now, cfg.codeTtl) {
      hide *;
      KeysMovedTwice(a, counted, b, slot);
    }
  }

  lemma SendIsAimed(s: Accounts, id: Id, ch: Channel, code: string, dispatched: Option<string>, cfg: Settings)
    requires id in s.pending
    ensures OthersAsTheyWere(s, SendCode(s, id, ch, code, dispatched, cfg).0, id)
  {
    var t := SendCode(s, id, ch, code, dispatched, cfg).0;
    SendingMoves(s, id, ch, code, dispatched, cfg);
    hide SendCode, SentKeys, SameKeys, OthersAsTheyWere;
    forall slot: Slot | slot.session != id
      ensures SameKeys(s.otp, t.otp, slot)
    {
      SentKeysAreAimed(s.otp, t.otp, id, ch, code, s.clock, cfg, slot);
    }
    WritingIsAimed(s, t, id);
  }

  lemma CheckIsAimed(s: Accounts, id: Id, ch: Channel, code: string, answer: ProviderAnswer, cfg: Settings)
    requires id in s.pending
    ensures OthersAsTheyWere(s, CheckCode(s, id, ch, code, answer, cfg).0, id)
  {
    var t := CheckCode(s, id, ch, code, answer, cfg).0;
    CheckingMoves(s, id, ch, code, answer, cfg);
    hide CheckCode, SameKeys, OthersAsTheyWere, VerifyCode, ClearSlot;
    forall slot: Slot | slot.session != id
      ensures SameKeys(s.otp, t.otp, slot)
    {
      StoreIsAimed(s.otp, id, ch, code, ProviderState("", ""), s.clock, 0, slot);
      StoreIsAimed(s.otp, id, Phone, code, ProviderState("", ""), s.clock, 0, slot);
      KeysKept(s.otp, slot);
    }
    WritingIsAimed(s, t, id);
  }

  lemma KeysKept(a: OtpKeys, slot: Slot)
    ensures SameKeys(a, a, slot)
  {
  }

  lemma CheckingMoves(s: Accounts, id: Id, ch: Channel, code: string, answer: ProviderAnswer, cfg: Settings)
    requires id in s.pending
    ensures var t := CheckCode(s, id, ch, code, answer, cfg).0;
      && (t.pending == s.pending || (id in t.pending && t.pending == s.pending[id := t.pending[id]]))
      && (t.otp == s.otp || t.otp == ClearSlot(s.otp, Slot(id, Phone))
          || t.otp == VerifyCode(s.otp, Slot(id, ch), code, s.clock).0)
  {
    SignupProgress.CheckCodeOutcomes(s, id, ch, code, answer, cfg);
    CheckedKeys(s, id, ch, code, answer, cfg);
    ProviderKeys(s, id, answer);
    RowsRewritten(s, id, ch);
    hide *;
  }

  lemma RowsRewritten(s: Accounts, id: Id, ch: Channel)
    requires id in s.pending
    ensures var f := Failed(s, id, ch).pending; id in f && f == s.pending[id := f[id]]
    ensures var g := Stamped(s, id, ch).pending; id in g && g == s.pending[id := g[id]]
  {
  }

  /** Sending, verifying, giving a phone and completing are about one session: all others keep their rows, their codes,
      their send counters and their provider requests. */
  lemma CallsAreAimed(s: Accounts, id: Id, kind: Kind, ch: Channel, resend: bool, code: string,
      dispatched: Option<string>, answer: ProviderAnswer, phone: string, cfg: Settings)
    ensures OthersAsTheyWere(s, SendChannel(s, id, kind, ch, resend, code, dispatched, cfg).0, id)
    ensures OthersAsTheyWere(s, VerifyChannel(s, id, kind, ch, code, answer, cfg).0, id)
    ensures OthersAsTheyWere(s, SetGooglePhone(s, id, phone).0, id)
    ensures OthersAsTheyWere(s, Complete(s, id, kind).0, id)
  {
    NothingMoved(s, id);
    LoadIsAimed(s, id, false);
    if id in s.pending {
      SendIsAimed(s, id, ch, code, dispatched, cfg);
      CheckIsAimed(s, id, ch, code, answer, cfg);
    }
    PhoneIsAimed(s, id, phone);
    CompletionIsAimed(s, id, kind);
    hide OthersAsTheyWere, Load, SendCode, CheckCode, SetGooglePhone, Complete, WaitBeforeResend, StateOf;
  }

  lemma PhoneIsAimed(s: Accounts, id: Id, phone: string)
    ensures OthersAsTheyWere(s, SetGooglePhone(s, id, phone).0, id)
  {
    LoadIsAimed(s, id, false);
    NothingMoved(s, id);
    if id in s.pending {
      KeysKeptAll(s.otp, id);
      WritingIsAimed(s, PhoneReplaced(s, id, phone), id);
    }
    hide OthersAsTheyWere, SameKeys, Load, UserByPhone, PendingByPhone;
  }

  lemma KeysKeptAll(a: OtpKeys, id: Id)
    ensures forall slot: Slot :: slot.session != id ==> SameKeys(a, a, slot)
    ensures forall slot: Slot :: slot.session != id ==> SameKeys(a, ClearSession(a, id), slot)
  {
  }

  lemma CompletionIsAimed(s: Accounts, id: Id, kind: Kind)
    ensures OthersAsTheyWere(s, Complete(s, id, kind).0, id)
  {
    LoadIsAimed(s, id, true);
    NothingMoved(s, id);
    KeysKeptAll(s.otp, id);
    if id in s.pending {
      var u := ExistingAccount(s, s.pending[id]);
      WritingIsAimed(s, Adopted(s, id, if u.Some? then u.value else 0), id);
      WritingIsAimed(s, UserCreated(s, id), id);
    }
    hide OthersAsTheyWere, SameKeys, Load, UserClash, ExistingAccount, Adopted, UserCreated, ClearSession;
  }
}
