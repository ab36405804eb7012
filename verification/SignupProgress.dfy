/** How a signup session may evolve from one moment to any later one. */
module SignupProgress {
  import opened Common
  import opened SignupOtp
  import opened Accounts
  import opened AccountInvariants
  import AccountSteps

  /** The channel has used up its attempts without being verified. */
  predicate Locked(c: ChannelState, maxAttempts: nat) {
    c.attempts >= maxAttempts && c.verifiedAt.None?
  }

  predicate ChannelFollows(c: ChannelState, d: ChannelState, maxAttempts: nat) {
    c.attempts <= d.attempts && (Locked(c, maxAttempts) ==> Locked(d, maxAttempts))
  }

  predicate TrackFollows(t: Track, u: Track) {
    t.kind == u.kind && t.preparations <= u.preparations
  }

  /** The account asked for is the same; only a session that came from a provider may be given another phone. */
  predicate SameAccount(p: Pending, q: Pending) {
    && q.email == p.email && q.password == p.password && q.expiresAt == p.expiresAt
    && (p.oauth.None? ==> q.oauth.None? && q.phone == p.phone)
  }

  /** A set completed user stays; without a new preparation the account asked for stays, attempts are never forgotten
      and a locked channel stays locked. */
  predicate RowFollows(p: Pending, t: Track, q: Pending, u: Track, maxAttempts: nat) {
    && (p.completedUser.Some? ==> q.completedUser == p.completedUser)
    && (t.preparations == u.preparations ==>
          && SameAccount(p, q)
          && ChannelFollows(p.emailState, q.emailState, maxAttempts)
          && ChannelFollows(p.phoneState, q.phoneState, maxAttempts))
  }

  ghost predicate SessionFollows(a: Accounts, b: Accounts, id: Id, maxAttempts: nat)
    requires id in a.tracks
  {
    && id in b.tracks && TrackFollows(a.tracks[id], b.tracks[id])
    && (id in b.pending ==>
          id in a.pending && RowFollows(a.pending[id], a.tracks[id], b.pending[id], b.tracks[id], maxAttempts))
  }

  /** Every session known at the first moment has followed these rules at the second; a deleted one is never back. */
  ghost predicate Progress(a: Accounts, b: Accounts, maxAttempts: nat) {
    forall id :: id in a.tracks ==> SessionFollows(a, b, id, maxAttempts)
  }

  lemma ProgressIsTransitive(a: Accounts, b: Accounts, c: Accounts, m: nat)
    requires Progress(a, b, m) && Progress(b, c, m)
    ensures Progress(a, c, m)
  {
    forall id | id in a.tracks
      ensures SessionFollows(a, c, id, m)
    {
      assert SessionFollows(a, b, id, m) && SessionFollows(b, c, id, m);
    }
  }

  /** Dropping rows, and anything that touches neither rows nor tracks. */
  lemma DroppingProgresses(a: Accounts, b: Accounts, m: nat)
    requires b.tracks == a.tracks && forall id :: id in b.pending ==> id in a.pending && b.pending[id] == a.pending[id]
    ensures Progress(a, b, m)
  {
  }

  /** One row of a known session rewritten. */
  lemma WritingProgresses(a: Accounts, b: Accounts, id: Id, m: nat)
    requires id in a.pending && id in a.tracks && id in b.pending && id in b.tracks
    requires b.pending == a.pending[id := b.pending[id]] && b.tracks == a.tracks[id := b.tracks[id]]
    requires TrackFollows(a.tracks[id], b.tracks[id])
    requires RowFollows(a.pending[id], a.tracks[id], b.pending[id], b.tracks[id], m)
    ensures Progress(a, b, m)
  {
  }

  /** A session under a fresh id. */
  lemma AddingProgresses(a: Accounts, b: Accounts, m: nat)
    requires a.next !in a.tracks && a.next in b.pending && a.next in b.tracks
    requires b.pending == a.pending[a.next := b.pending[a.next]] && b.tracks == a.tracks[a.next := b.tracks[a.next]]
    ensures Progress(a, b, m)
  {
  }

  // ----- the calls

  lemma LoadProgresses(s: Accounts, id: Id, allowCompleted: bool, m: nat)
    ensures Progress(s, Load(s, id, allowCompleted).0, m)
  {
    hide Progress;
    DroppingProgresses(s, Load(s, id, allowCompleted).0, m);
  }

  /** The row a preparation reuses is open, so nothing that must stay is lost. */
  lemma RepreparedProgresses(s: Accounts, id: Id, email: string, phone: Option<string>,
      password: PasswordHash, kind: Kind, cfg: Settings, m: nat)
    requires id in s.pending ==> s.pending[id].completedUser.None?
    ensures Progress(s, Reprepared(s, id, email, phone, password, kind, cfg), m)
  {
    hide Progress;
    if id in s.pending && id in s.tracks {
      WritingProgresses(s, Reprepared(s, id, email, phone, password, kind, cfg), id, m);
    } else {
      DroppingProgresses(s, s, m);
    }
  }

  lemma GatheredProgresses(s: Accounts, email: string, phone: Option<string>, otp: OtpKeys, m: nat)
    ensures Progress(s, s.(otp := otp, pending := Gather(s, email, phone).rows), m)
    ensures Progress(s, s.(otp := otp), m)
    ensures forall id :: id in Gather(s, email, phone).rows ==>
      id in s.pending && Gather(s, email, phone).rows[id] == s.pending[id]
  {
    hide Progress;
    DroppingProgresses(s, s.(otp := otp, pending := Gather(s, email, phone).rows), m);
    DroppingProgresses(s, s.(otp := otp), m);
  }

  lemma FreshProgresses(s: Accounts, email: string, phone: Option<string>, p: Pending, otp: OtpKeys, track: Track,
      m: nat)
    requires s.next !in s.tracks
    ensures Progress(s, s.(otp := otp, pending := Gather(s, email, phone).rows[s.next := p], next := s.next + 1,
                           tracks := s.tracks[s.next := track]), m)
  {
    hide Progress, Gather;
    var s1 := s.(otp := otp, pending := Gather(s, email, phone).rows);
    var after := s1.(pending := s1.pending[s.next := p], next := s.next + 1, tracks := s.tracks[s.next := track]);
    GatheredProgresses(s, email, phone, otp, m);
    AddingProgresses(s1, after, m);
    ProgressIsTransitive(s, s1, after, m);
  }

  lemma AgainProgresses(s: Accounts, email: string, phone: Option<string>, password: PasswordHash,
      kind: Kind, cfg: Settings, id: Id, otp: OtpKeys, m: nat)
    requires !Blocks(s, Some(id), kind)
    ensures Progress(s, Reprepared(s.(otp := otp, pending := Gather(s, email, phone).rows), id, email, phone, password,
      kind, cfg), m)
  {
    hide Progress, Gather, Reprepared;
    var s1 := s.(otp := otp, pending := Gather(s, email, phone).rows);
    GatheredProgresses(s, email, phone, otp, m);
    RepreparedProgresses(s1, id, email, phone, password, kind, cfg, m);
    ProgressIsTransitive(s, s1, Reprepared(s1, id, email, phone, password, kind, cfg), m);
  }

  lemma PrepareProgresses(s: Accounts, email: string, phone: Option<string>, password: PasswordHash,
      kind: Kind, cfg: Settings, m: nat)
    requires Valid(s, m)
    ensures Progress(s, Prepare(s, email, phone, password, kind, cfg).0, m)
  {
    assert s.next !in s.tracks;
    hide Valid, Progress, ClearSession, Gather, Reprepared, FreshRow, Blocks;
    var h := Gather(s, email, phone);
    if Blocks(s, h.byEmail, kind) || Blocks(s, h.byPhone, kind)
        || (h.byEmail.Some? && h.byPhone.Some? && h.byEmail != h.byPhone) {
      GatheredProgresses(s, email, phone, h.otp, m);
    } else if h.byEmail.None? && h.byPhone.None? {
      FreshProgresses(s, email, phone, FreshRow(s, email, phone, password, kind, cfg), h.otp,
        Track(kind, s.clock, s.clock, 1), m);
    } else {
      var id := if h.byEmail.Some? then h.byEmail.value else h.byPhone.value;
      AgainProgresses(s, email, phone, password, kind, cfg, id, ClearSession(h.otp, id), m);
    }
  }

  /** A row written with the same track. */
  lemma RowChangeProgresses(s: Accounts, after: Accounts, id: Id, m: nat)
    requires Valid(s, m) && id in s.pending && id in after.pending && after.tracks == s.tracks
    requires after.pending == s.pending[id := after.pending[id]]
    requires s.pending[id].completedUser.Some? ==> after.pending[id].completedUser == s.pending[id].completedUser
    requires SameAccount(s.pending[id], after.pending[id])
    requires ChannelFollows(s.pending[id].emailState, after.pending[id].emailState, m)
    requires ChannelFollows(s.pending[id].phoneState, after.pending[id].phoneState, m)
    ensures Progress(s, after, m)
  {
    hide UsersDistinct, LinksDistinct, CodesBelow, UsersBelow, LinksExist;
    hide CodesFine, LivesFine, AllCanLogin, OriginsFine, RowsDistinct;
    hide Progress, RowFine, ChannelFollows;
    assert s.tracks[id := s.tracks[id]] == s.tracks;
    WritingProgresses(s, after, id, m);
  }

  lemma SendChannelProgresses(s: Accounts, id: Id, kind: Kind, ch: Channel, resend: bool, code: string,
      dispatched: Option<string>, cfg: Settings, m: nat)
    requires Valid(s, m)
    ensures Progress(s, SendChannel(s, id, kind, ch, resend, code, dispatched, cfg).0, m)
  {
    hide Valid, Progress, Accepts, RetryAfter, CountSend, StoreCode;
    LoadProgresses(s, id, false, m);
    var after := SendChannel(s, id, kind, ch, resend, code, dispatched, cfg).0;
    DroppingProgresses(s, s, m);
    AccountSteps.EnterKeeps(s, id, kind, ch, cfg, m);
    if Enter(s, id, kind, ch, cfg).1.None? {
      if after.pending == s.pending {
        DroppingProgresses(s, after, m);
      } else {
        RowChangeProgresses(s, after, id, m);
      }
    }
  }

  /** A right code stamps the channel, a wrong one costs an attempt; neither happens once the attempts are used up. */
  lemma CheckCodeOutcomes(s: Accounts, id: Id, ch: Channel, code: string, answer: ProviderAnswer, cfg: Settings)
    requires id in s.pending
    ensures var after := CheckCode(s, id, ch, code, answer, cfg).0;
      && after.tracks == s.tracks
      && (after.pending == s.pending || after.pending == Failed(s, id, ch).pending
        || after.pending == Stamped(s, id, ch).pending)
      && (StateOf(s.pending[id], ch).attempts >= cfg.maxAttempts ==> after == s)
  {
    hide Failed, Stamped, WellShaped, VerifyCode, ClearSlot;
    FailedKeepsRest(s, id, ch);
  }

  lemma FailedKeepsRest(s: Accounts, id: Id, ch: Channel)
    requires id in s.pending
    ensures Failed(s, id, ch).tracks == s.tracks && Stamped(s, id, ch).tracks == s.tracks
  {
  }

  lemma CheckCodeProgresses(s: Accounts, id: Id, ch: Channel, code: string, answer: ProviderAnswer, cfg: Settings)
    requires Valid(s, cfg.maxAttempts) && id in s.pending
    ensures Progress(s, CheckCode(s, id, ch, code, answer, cfg).0, cfg.maxAttempts)
  {
    CheckCodeOutcomes(s, id, ch, code, answer, cfg);
    hide Valid, Progress, CheckCode;
    var after := CheckCode(s, id, ch, code, answer, cfg).0;
    if after.pending == s.pending {
      DroppingProgresses(s, after, cfg.maxAttempts);
    } else {
      RowChangeProgresses(s, after, id, cfg.maxAttempts);
    }
  }

  lemma VerifyChannelProgresses(s: Accounts, id: Id, kind: Kind, ch: Channel, code: string,
      answer: ProviderAnswer, cfg: Settings)
    requires Valid(s, cfg.maxAttempts)
    ensures Progress(s, VerifyChannel(s, id, kind, ch, code, answer, cfg).0, cfg.maxAttempts)
  {
    hide Valid, Progress, CheckCode;
    LoadProgresses(s, id, false, cfg.maxAttempts);
    DroppingProgresses(s, s, cfg.maxAttempts);
    AccountSteps.EnterKeeps(s, id, kind, ch, cfg, cfg.maxAttempts);
    if Enter(s, id, kind, ch, cfg).1.None? {
      CheckCodeProgresses(s, id, ch, code, answer, cfg);
    }
  }

  lemma SetGooglePhoneProgresses(s: Accounts, id: Id, phone: string, m: nat)
    requires Valid(s, m)
    ensures Progress(s, SetGooglePhone(s, id, phone).0, m)
  {
    assert id in s.pending ==> id in s.tracks;
    hide Valid, Progress, UserByPhone, PendingByPhone;
    LoadProgresses(s, id, false, m);
    DroppingProgresses(s, s, m);
    AccountSteps.LoadKeeps(s, id, false, m);
    if SetGooglePhone(s, id, phone).1.None? {
      WritingProgresses(s, PhoneReplaced(s, id, phone), id, m);
    }
  }

  lemma CompleteProgresses(s: Accounts, id: Id, kind: Kind, m: nat)
    requires Valid(s, m)
    ensures Progress(s, Complete(s, id, kind).0, m)
  {
    hide Valid, Progress, UserClash, ExistingAccount, ClearSession, NewUser;
    LoadProgresses(s, id, true, m);
    AccountSteps.LoadKeeps(s, id, true, m);
    var after := Complete(s, id, kind).0;
    if Load(s, id, true).1.None? {
      if after.pending == s.pending {
        DroppingProgresses(s, after, m);
      } else {
        RowChangeProgresses(s, after, id, m);
      }
    }
  }

  lemma GoogleCallbackProgresses(s: Accounts, account: string, email: string, cfg: Settings, m: nat)
    requires Valid(s, m)
    ensures Progress(s, GoogleCallback(s, account, email, cfg).0, m)
  {
    assert s.next !in s.tracks;
    hide Valid, Progress, UserByEmail, PendingByEmail;
    var after := GoogleCallback(s, account, email, cfg).0;
    var existing := PendingByEmail(s, email);
    var s1 := s.(pending := if existing.Some? then s.pending - {existing.value} else s.pending);
    DroppingProgresses(s, s, m);
    DroppingProgresses(s, s1, m);
    if after != s {
      AddingProgresses(s1, after, m);
      ProgressIsTransitive(s, s1, after, m);
    }
  }
}
