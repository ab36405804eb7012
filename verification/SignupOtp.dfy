/** The part of Redis the stores rely on: keys that may expire. Time is in milliseconds, as Redis keeps it; commands
    give lifetimes in seconds. */
module Redis {
  import opened Common

  type Time = int

  const SECOND: nat := 1000

  datatype Entry<+V> = Entry(value: V, expiresAt: Option<Time>)

  type Keyspace<K(==), V> = map<K, Entry<V>>

  predicate Live<K, V>(s: Keyspace<K, V>, k: K, now: Time) {
    k in s && (s[k].expiresAt.None? || now < s[k].expiresAt.value)
  }

  function Get<K, V>(s: Keyspace<K, V>, k: K, now: Time): Option<V> {
    if Live(s, k, now) then Some(s[k].value) else None
  }

  /** SET key value EX ttl */
  function SetEx<K, V>(s: Keyspace<K, V>, k: K, v: V, now: Time, ttl: nat): Keyspace<K, V> {
    s[k := Entry(v, Some(now + ttl * SECOND))]
  }

  function Del<K, V>(s: Keyspace<K, V>, k: K): Keyspace<K, V> {
    s - {k}
  }

  /** INCR: counts from zero without an expiry when the key is gone, and keeps the expiry of a live key. */
  function Incr<K>(s: Keyspace<K, nat>, k: K, now: Time): Keyspace<K, nat> {
    if Live(s, k, now) then s[k := s[k].(value := s[k].value + 1)] else s[k := Entry(1, None)]
  }

  /** EXPIRE key ttl */
  function Expire<K, V>(s: Keyspace<K, V>, k: K, now: Time, ttl: nat): Keyspace<K, V> {
    if Live(s, k, now) then s[k := s[k].(expiresAt := Some(now + ttl * SECOND))] else s
  }

  /** TTL key: -2 for a missing key, -1 for a key without an expiry, otherwise the nearest whole second. */
  function Ttl<K, V>(s: Keyspace<K, V>, k: K, now: Time): int {
    if !Live(s, k, now) then -2 else if s[k].expiresAt.None? then -1 else (s[k].expiresAt.value - now + 500) / SECOND
  }
}

/** The signup OTP store of app/auth/signup_otp.py. Every method is one or two atomic Redis commands. */
module SignupOtp {
  import opened Common
  import opened Redis

  type Id = nat

  datatype Channel = Email | Phone

  datatype Slot = Slot(session: Id, channel: Channel)

  /** SHA-256 of a code, as an injective function of it. */
  datatype CodeHash = CodeHash(code: string)

  datatype ProviderState = ProviderState(requestId: string, phone: string)

  datatype OtpKeys = OtpKeys(codes: Keyspace<Slot, CodeHash>, rates: Keyspace<Slot, nat>, provider: Keyspace<Slot,
      ProviderState>)

  const WINDOW: nat := 3600
  const HOUR: nat := WINDOW * SECOND

  // ----- the atomic steps

  function StoreCode(r: OtpKeys, slot: Slot, code: string, now: Time, ttl: nat): OtpKeys {
    r.(codes := SetEx(r.codes, slot, CodeHash(code), now, ttl))
  }

  /** The script compares and deletes in one step; a wrong code leaves the stored one alone. */
  function VerifyCode(r: OtpKeys, slot: Slot, code: string, now: Time): (OtpKeys, bool) {
    if Get(r.codes, slot, now) == Some(CodeHash(code)) then (r.(codes := Del(r.codes, slot)), true) else (r, false)
  }

  function ClearSlot(r: OtpKeys, slot: Slot): OtpKeys {
    r.(codes := Del(r.codes, slot), provider := if slot.channel == Phone then Del(r.provider, slot) else r.provider)
  }

  function ClearSession(r: OtpKeys, session: Id): OtpKeys {
    r.(codes := Del(Del(r.codes, Slot(session, Email)), Slot(session, Phone)),
      provider := Del(r.provider, Slot(session, Phone)))
  }

  /** INCR, and EXPIRE on the first increment, in one script. */
  function CountSend(r: OtpKeys, slot: Slot, now: Time): OtpKeys {
    var counted := Incr(r.rates, slot, now);
    r.(rates := if counted[slot].value == 1 then Expire(counted, slot, now, WINDOW) else counted)
  }

  predicate Accepts(r: OtpKeys, slot: Slot, now: Time, maxSends: nat) {
    CountSend(r, slot, now).rates[slot].value <= maxSends
  }

  /** `retry_after_seconds=max(ttl, 1)` */
  function RetryAfter(r: OtpKeys, slot: Slot, now: Time): nat {
    var ttl := Ttl(r.rates, slot, now);
    if ttl >= 1 then ttl else 1
  }

  /** The store over one Redis; other clients act between its calls. */
  class SignupOtpStore {
    var keys: OtpKeys
    const codeTtl: nat
    const maxSends: nat

    constructor (codeTtl: nat, maxSends: nat)
      ensures this.codeTtl == codeTtl && this.maxSends == maxSends && keys == OtpKeys(map[], map[], map[])
    {
      this.codeTtl, this.maxSends := codeTtl, maxSends;
      keys := OtpKeys(map[], map[], map[]);
    }

    method StoreOtp(session: Id, channel: Channel, code: string, now: Time)
      modifies this
      ensures keys == StoreCode(old(keys), Slot(session, channel), code, now, codeTtl)
    {
      keys := keys.(codes := SetEx(keys.codes, Slot(session, channel), CodeHash(code), now, codeTtl));
    }

    method VerifyAndConsume(session: Id, channel: Channel, code: string, now: Time) returns (ok: bool)
      modifies this
      ensures (keys, ok) == VerifyCode(old(keys), Slot(session, channel), code, now)
    {
      var slot := Slot(session, channel);
      var stored := Get(keys.codes, slot, now);
      if stored == None {
        return false;
      }
      if stored.value != CodeHash(code) {
        return false;
      }
      keys := keys.(codes := Del(keys.codes, slot));
      return true;
    }

    method Clear(session: Id, channel: Channel)
      modifies this
      ensures keys == ClearSlot(old(keys), Slot(session, channel))
    {
      keys := keys.(codes := Del(keys.codes, Slot(session, channel)));
      if channel == Phone {
        keys := keys.(provider := Del(keys.provider, Slot(session, channel)));
      }
    }

    method ClearAll(session: Id)
      modifies this
      ensures keys == ClearSession(old(keys), session)
    {
      keys := keys.(codes := Del(keys.codes, Slot(session, Email)));
      keys := keys.(codes := Del(keys.codes, Slot(session, Phone)));
      keys := keys.(provider := Del(keys.provider, Slot(session, Phone)));
    }

    /** The counting script alone; the TTL read of a refused call is a separate command. */
    method IncrementSends(session: Id, channel: Channel, now: Time) returns (count: nat)
      modifies this
      ensures keys == CountSend(old(keys), Slot(session, channel), now)
      ensures count == keys.rates[Slot(session, channel)].value
      ensures count <= maxSends <==> Accepts(old(keys), Slot(session, channel), now, maxSends)
    {
      var slot := Slot(session, channel);
      keys := keys.(rates := Incr(keys.rates, slot, now));
      count := keys.rates[slot].value;
      if count == 1 {
        keys := keys.(rates := Expire(keys.rates, slot, now, WINDOW));
      }
    }

    method RetryAfterSeconds(session: Id, channel: Channel, now: Time) returns (seconds: nat)
      ensures seconds == RetryAfter(keys, Slot(session, channel), now)
    {
      var ttl := Ttl(keys.rates, Slot(session, channel), now);
      seconds := if ttl > 1 then ttl else 1;
    }
  }

  // ----- runs of any number of clients

  /** One atomic step of some client, at some moment. */
  datatype Event =
    | Send(slot: Slot, at: Time)
    | Store(slot: Slot, code: string, ttl: nat, at: Time)
    | Verify(slot: Slot, code: string, at: Time)
    | Clear(slot: Slot, at: Time)
    | ClearAll(session: Id, at: Time)
    | StoreProvider(slot: Slot, state: ProviderState, ttl: nat, at: Time)

  function Apply(r: OtpKeys, e: Event): OtpKeys {
    match e
    case Send(slot, at) => CountSend(r, slot, at)
    case Store(slot, code, ttl, at) => StoreCode(r, slot, code, at, ttl)
    case Verify(slot, code, at) => VerifyCode(r, slot, code, at).0
    case Clear(slot, _) => ClearSlot(r, slot)
    case ClearAll(session, _) => ClearSession(r, session)
    case StoreProvider(slot, state, ttl, at) => r.(provider := SetEx(r.provider, slot, state, at, ttl))
  }

  /** The state after a history, starting from an empty Redis. */
  function After(h: seq<Event>): OtpKeys {
    if h == [] then OtpKeys(map[], map[], map[]) else Apply(After(h[..|h| - 1]), h[|h| - 1])
  }

  predicate Chronological(h: seq<Event>) {
    forall i, j :: 0 <= i < j < |h| ==> h[i].at <= h[j].at
  }

  /** The last event of the history is an accepted send on this slot, within [lo, lo + HOUR]. */
  predicate AcceptedLast(h: seq<Event>, slot: Slot, lo: Time, maxSends: nat)
    requires h != []
  {
    var e := h[|h| - 1];
    e.Send? && e.slot == slot && lo <= e.at <= lo + HOUR && Accepts(After(h[..|h| - 1]), slot, e.at, maxSends)
  }

  /** How many sends were accepted on the slot within [lo, lo + HOUR]. */
  function AcceptedIn(h: seq<Event>, slot: Slot, lo: Time, maxSends: nat): nat {
    if h == [] then 0 else AcceptedIn(h[..|h| - 1], slot, lo, maxSends) + if AcceptedLast(h, slot, lo, maxSends) then 1
      else 0
  }

  /** Every counter key has an expiry, set at the window's first send. */
  predicate CountersExpire(r: OtpKeys) {
    forall k :: k in r.rates ==> r.rates[k].expiresAt.Some? && r.rates[k].value >= 1
  }

  lemma {:induction false} CountersAlwaysExpire(h: seq<Event>)
    ensures CountersExpire(After(h))
  {
    if h != [] {
      CountersAlwaysExpire(h[..|h| - 1]);
    }
  }

  function Min(a: nat, b: nat): nat {
    if a < b then a else b
  }

  /** The current window's share of the accepted sends, and the most an earlier window can have left behind. */
  predicate WindowBound(r: OtpKeys, slot: Slot, accepted: nat, lo: Time, maxSends: nat) {
    if slot !in r.rates then accepted == 0
    else
      && r.rates[slot].expiresAt.Some?
      && r.rates[slot].value >= 1
      && var count, start := r.rates[slot].value, r.rates[slot].expiresAt.value - HOUR;
      && (start + HOUR <= lo ==> accepted == 0)
      && (start <= lo ==> accepted <= Min(count, maxSends))
      && (lo < start <= lo + HOUR ==> accepted <= maxSends + Min(count, maxSends))
      && accepted <= 2 * maxSends
  }

  lemma SendKeepsBound(r: OtpKeys, slot: Slot, at: Time, accepted: nat, lo: Time, maxSends: nat)
    requires WindowBound(r, slot, accepted, lo, maxSends)
    requires slot in r.rates ==> r.rates[slot].expiresAt.value - HOUR <= at
    ensures WindowBound(CountSend(r, slot, at), slot,
              accepted + if lo <= at <= lo + HOUR && Accepts(r, slot, at, maxSends) then 1 else 0, lo, maxSends)
  {
  }

  lemma {:induction false} BoundHolds(h: seq<Event>, slot: Slot, lo: Time, maxSends: nat)
    requires Chronological(h)
    ensures WindowBound(After(h), slot, AcceptedIn(h, slot, lo, maxSends), lo, maxSends)
    ensures slot in After(h).rates ==> h != [] && After(h).rates[slot].expiresAt.value - HOUR <= h[|h| - 1].at
  {
    if h != [] {
      var before, e := h[..|h| - 1], h[|h| - 1];
      BoundHolds(before, slot, lo, maxSends);
      if e.Send? && e.slot == slot {
        SendKeepsBound(After(before), slot, e.at, AcceptedIn(before, slot, lo, maxSends), lo, maxSends);
      } else {
        OthersLeaveCounter(After(before), e, slot);
      }
    }
  }

  lemma OthersLeaveCounter(r: OtpKeys, e: Event, slot: Slot)
    requires !(e.Send? && e.slot == slot)
    ensures slot in Apply(r, e).rates <==> slot in r.rates
    ensures slot in r.rates ==> Apply(r, e).rates[slot] == r.rates[slot]
  {
  }

  /** However many clients call and whenever they do, an hour holds at most twice the cap of accepted sends. */
  lemma HourlyBound(h: seq<Event>, slot: Slot, lo: Time, maxSends: nat)
    requires Chronological(h)
    ensures AcceptedIn(h, slot, lo, maxSends) <= 2 * maxSends
  {
    BoundHolds(h, slot, lo, maxSends);
  }

  /** What is left of the slot's window when the wait is read. */
  function Remaining(r: OtpKeys, slot: Slot, readAt: Time): int {
    if Live(r.rates, slot, readAt) && r.rates[slot].expiresAt.Some? then r.rates[slot].expiresAt.value - readAt else 0
  }

  /** Rounding to seconds does not cut the wait short: at most a second is left, or whole seconds, or half a second and
      more above. */
  predicate RoundsUp(remaining: int) {
    remaining <= SECOND || remaining % SECOND == 0 || remaining % SECOND >= 500
  }

  lemma RoundedWait(remaining: int)
    requires remaining > 0
    ensures var seconds := if (remaining + 500) / SECOND >= 1 then (remaining + 500) / SECOND else 1;
      && (remaining <= seconds * SECOND <==> RoundsUp(remaining))
      && remaining <= seconds * SECOND + 499
  {
  }

  /** After a refusal, the first call once `retry_after_seconds` are over is accepted exactly when the rounding did not
      cut the wait short; half a second more is always enough. */
  lemma RetryAfterSuffices(h: seq<Event>, slot: Slot, refusedAt: Time, readAt: Time, again: Time, maxSends: nat)
    requires maxSends >= 1 && refusedAt <= readAt && !Accepts(After(h), slot, refusedAt, maxSends)
    ensures var r := After(h + [Send(slot, refusedAt)]);
      var due := readAt + RetryAfter(r, slot, readAt) * SECOND;
      && (Accepts(r, slot, due, maxSends) <==> RoundsUp(Remaining(r, slot, readAt)))
      && (again >= due + 500 ==> Accepts(r, slot, again, maxSends))
      && (RoundsUp(Remaining(r, slot, readAt)) && again >= due ==> Accepts(r, slot, again, maxSends))
  {
    var r := After(h + [Send(slot, refusedAt)]);
    CountersAlwaysExpire(h + [Send(slot, refusedAt)]);
    assert (h + [Send(slot, refusedAt)])[..|h|] == h;
    WaitIsRounded(r, slot, readAt);
    hide RoundsUp, RetryAfter, Ttl;
  }

  lemma WaitIsRounded(r: OtpKeys, slot: Slot, readAt: Time)
    requires CountersExpire(r)
    ensures var remaining, wait := Remaining(r, slot, readAt), RetryAfter(r, slot, readAt) * SECOND;
      && (remaining > 0 ==> (remaining <= wait <==> RoundsUp(remaining)) && remaining <= wait + 499)
      && (remaining <= 0 ==> RoundsUp(remaining)) && wait >= SECOND
  {
    if Remaining(r, slot, readAt) > 0 {
      RoundedWait(Remaining(r, slot, readAt));
    }
  }

  /** The wait can be too short: refused with 3599.4 seconds of the window left, a client is told 3599 and is refused
      again. */
  lemma RetryCanBeEarly(slot: Slot)
    ensures var h := [Send(slot, 0), Send(slot, 600)];
      var r := After(h);
      && !Accepts(After(h[..1]), slot, 600, 1) && RetryAfter(r, slot, 600) == 3599
      && !Accepts(r, slot, 600 + RetryAfter(r, slot, 600) * SECOND, 1)
  {
    var h := [Send(slot, 0), Send(slot, 600)];
    var first := h[..1];
    assert first == [Send(slot, 0)] && first[..0] == [] && h[..|h| - 1] == first && first[..|first| - 1] == [];
    assert After(first).rates[slot] == Entry(1, Some(HOUR));
    assert After(h).rates[slot] == Entry(2, Some(HOUR));
  }

  /** `n` sends at time 0, then `k` an hour later. */
  function Burst(slot: Slot, n: nat, k: nat): seq<Event>
    decreases n + k
  {
    if k > 0 then Burst(slot, n, k - 1) + [Send(slot, HOUR)]
    else if n > 0 then Burst(slot, n - 1, 0) + [Send(slot, 0)]
    else []
  }

  /** The counter and its expiry after `n` sends at time 0 and `k` an hour later. */
  predicate BurstCounted(r: OtpKeys, slot: Slot, n: nat, k: nat) {
    if k > 0 then slot in r.rates && r.rates[slot] == Entry(k, Some(2 * HOUR))
    else if n > 0 then slot in r.rates && r.rates[slot] == Entry(n, Some(HOUR))
    else slot !in r.rates
  }

  lemma BurstGoesOn(r: OtpKeys, slot: Slot, n: nat, k: nat, maxSends: nat)
    requires n <= maxSends && k <= maxSends && (k > 0 ==> n > 0) && n + k > 0
    requires BurstCounted(r, slot, if k > 0 then n else n - 1, if k > 0 then k - 1 else 0)
    ensures var at := if k > 0 then HOUR else 0;
      Accepts(r, slot, at, maxSends) && BurstCounted(CountSend(r, slot, at), slot, n, k)
  {
  }

  lemma {:induction false} BurstAccepted(slot: Slot, n: nat, k: nat, maxSends: nat)
    requires n <= maxSends && k <= maxSends && (k > 0 ==> n > 0)
    ensures AcceptedIn(Burst(slot, n, k), slot, 0, maxSends) == n + k
    ensures BurstCounted(After(Burst(slot, n, k)), slot, n, k)
    decreases n + k
  {
    var h := Burst(slot, n, k);
    if n + k > 0 {
      var n', k' := if k > 0 then n else n - 1, if k > 0 then k - 1 else 0;
      BurstAccepted(slot, n', k', maxSends);
      assert h[..|h| - 1] == Burst(slot, n', k');
      BurstGoesOn(After(h[..|h| - 1]), slot, n, k, maxSends);
      hide Accepts, CountSend, BurstCounted;
      assert After(h) == CountSend(After(h[..|h| - 1]), slot, if k > 0 then HOUR else 0);
      assert AcceptedLast(h, slot, 0, maxSends);
    }
  }

  lemma {:induction false} BurstInOrder(slot: Slot, n: nat, k: nat)
    ensures Chronological(Burst(slot, n, k))
    ensures forall i :: 0 <= i < |Burst(slot, n, k)| ==> Burst(slot, n, k)[i].at <= if k > 0 then HOUR else 0
    decreases n + k
  {
    if k > 0 {
      BurstInOrder(slot, n, k - 1);
    } else if n > 0 {
      BurstInOrder(slot, n - 1, 0);
    }
  }

  /** The bound is attained for every cap, so the hourly cap itself is not a bound on every hour. */
  lemma BoundIsAttained(slot: Slot, maxSends: nat)
    requires maxSends > 0
    ensures Chronological(Burst(slot, maxSends, maxSends))
    ensures AcceptedIn(Burst(slot, maxSends, maxSends), slot, 0, maxSends) == 2 * maxSends
  {
    BurstAccepted(slot, maxSends, maxSends, maxSends);
    BurstInOrder(slot, maxSends, maxSends);
  }

  // ----- codes

  function Stores(h: seq<Event>, slot: Slot): nat {
    if h == [] then 0 else Stores(h[..|h| - 1], slot) + if h[|h| - 1].Store? && h[|h| - 1].slot == slot then 1 else 0
  }

  predicate VerifiedLast(h: seq<Event>, slot: Slot)
    requires h != []
  {
    var e := h[|h| - 1];
    e.Verify? && e.slot == slot && VerifyCode(After(h[..|h| - 1]), slot, e.code, e.at).1
  }

  function Verifications(h: seq<Event>, slot: Slot): nat {
    if h == [] then 0 else Verifications(h[..|h| - 1], slot) + if VerifiedLast(h, slot) then 1 else 0
  }

  /** The waiting code, and no other, verifies, and is then gone; any other attempt leaves every key as it is. */
  lemma VerifiesExactly(r: OtpKeys, slot: Slot, code: string, now: Time)
    ensures var (after, ok) := VerifyCode(r, slot, code, now);
      && (ok <==>
            && slot in r.codes && r.codes[slot].value.code == code
            && (r.codes[slot].expiresAt.None? || now < r.codes[slot].expiresAt.value))
      && (!ok ==> after == r) && (ok ==> after == r.(codes := after.codes) && slot !in after.codes)
      && (forall other :: other != slot ==>
            (other in after.codes <==> other in r.codes) && (other in r.codes ==> after.codes[other] == r.codes[other]))
  {
  }

  /** Clearing a slot takes its code, and a phone's provider request; clearing a session takes all three of its records.
      The send counters stay. */
  lemma ClearsExactly(r: OtpKeys, slot: Slot)
    ensures var after := ClearSlot(r, slot);
      && slot !in after.codes && after.rates == r.rates
      && (slot.channel == Phone ==> slot !in after.provider) && (slot.channel == Email ==> after.provider == r.provider)
    ensures var after := ClearSession(r, slot.session);
      && after.rates == r.rates && Slot(slot.session, Phone) !in after.provider
      && forall ch: Channel :: Slot(slot.session, ch) !in after.codes
  {
    forall ch: Channel
      ensures Slot(slot.session, ch) !in ClearSession(r, slot.session).codes
    {
      match ch
      case Email =>
      case Phone =>
    }
  }

  /** Each stored code verifies at most once, however many clients present it at the same moment. */
  lemma {:induction false} CodesVerifyOnce(h: seq<Event>, slot: Slot)
    ensures Verifications(h, slot) + (if slot in After(h).codes then 1 else 0) <= Stores(h, slot)
  {
    if h != [] {
      CodesVerifyOnce(h[..|h| - 1], slot);
    }
  }

  /** Event `j` takes the code of the slot away: a clear, or a verification that succeeds. */
  predicate Removes(h: seq<Event>, j: nat, slot: Slot)
    requires j < |h|
  {
    match h[j]
    case Clear(s, _) => s == slot
    case ClearAll(session, _) => session == slot.session
    case Verify(s, code, at) => s == slot && VerifyCode(After(h[..j]), slot, code, at).1
    case _ => false
  }

  /** Event `i` stored this code, it has not expired by `now`, and nothing was stored, cleared or used on the slot
      since. */
  predicate StoredBy(h: seq<Event>, i: nat, slot: Slot, code: string, now: Time)
    requires i < |h|
  {
    && h[i].Store? && h[i].slot == slot && h[i].code == code && now < h[i].at + h[i].ttl * SECOND
    && (forall j :: i < j < |h| && h[j].Store? ==> h[j].slot != slot)
    && (forall j :: i < j < |h| ==> !Removes(h, j, slot))
  }

  lemma RemovedIsGone(h: seq<Event>, slot: Slot)
    requires h != [] && Removes(h, |h| - 1, slot)
    ensures slot !in After(h).codes
  {
    match slot.channel {
      case Email => assert slot == Slot(slot.session, Email);
      case Phone => assert slot == Slot(slot.session, Phone);
    }
  }

  /** A code verifies only if it is the one last stored on the slot, in time, and neither cleared nor used since. */
  lemma {:induction false} VerifiedCodeWasStored(h: seq<Event>, slot: Slot, code: string, now: Time) returns (i: nat)
    requires VerifyCode(After(h), slot, code, now).1
    ensures i < |h| && StoredBy(h, i, slot, code, now)
  {
    var before, e := h[..|h| - 1], h[|h| - 1];
    if e.Store? && e.slot == slot {
      i := |h| - 1;
    } else {
      i := VerifiedCodeWasStored(before, slot, code, now);
      forall j | i < j < |h|
        ensures h[j].Store? ==> h[j].slot != slot
        ensures !Removes(h, j, slot)
      {
        if j < |before| {
          assert before[j] == h[j] && before[..j] == h[..j];
          assert !Removes(before, j, slot);
        } else if Removes(h, j, slot) {
          RemovedIsGone(h, slot);
        }
      }
    }
  }
}
