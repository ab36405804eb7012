/** Every service call keeps the account tables valid. */
module AccountSteps {
  import opened Common
  import opened SignupOtp
  import opened Accounts
  import opened AccountInvariants

  lemma ClearingLosesCodes(otp: OtpKeys, id: Id)
    ensures NoNewCodes(otp, ClearSession(otp, id)) && NoNewCodes(otp, otp)
    ensures forall ch: Channel :: Slot(id, ch) !in ClearSession(otp, id).codes
  {
    forall ch: Channel
      ensures Slot(id, ch) !in ClearSession(otp, id).codes
    {
      assert ch == Email || ch == Phone;
    }
  }

  lemma LoadKeeps(s: Accounts, id: Id, allowCompleted: bool, m: nat)
    requires Valid(s, m)
    ensures Valid(Load(s, id, allowCompleted).0, m)
    ensures Load(s, id, allowCompleted).1.None? ==> Load(s, id, allowCompleted).0 == s && id in s.pending
  {
    hide Valid, NoNewCodes;
    ClearingLosesCodes(s.otp, id);
    CodesLost(s, ClearSession(s.otp, id), m);
    RowsDropped(s.(otp := ClearSession(s.otp, id)), {id}, m);
  }

  lemma EnterKeeps(s: Accounts, id: Id, kind: Kind, ch: Channel, cfg: Settings, m: nat)
    requires Valid(s, m)
    ensures Valid(Enter(s, id, kind, ch, cfg).0, m)
    ensures Enter(s, id, kind, ch, cfg).1.None? ==> Enter(s, id, kind, ch, cfg).0 == s && id in s.pending
  {
    hide Valid;
    LoadKeeps(s, id, false, m);
  }

  // ----- starting a signup

  /** The rows found by unique columns are the only ones there. */
  lemma LookupsExact(s: Accounts, email: string, phone: Option<string>)
    requires RowsDistinct(s.pending)
    ensures forall id :: id in s.pending && s.pending[id].email == email ==> PendingByEmail(s, email) == Some(id)
    ensures phone.Some? ==> forall id :: id in s.pending && s.pending[id].phone == phone ==>
      PendingByPhone(s, phone) == Some(id)
  {
  }

  /** Whatever row a successful preparation writes, no other remaining row has its addresses. */
  lemma GatheredFree(s: Accounts, email: string, phone: Option<string>, id: Id, p: Pending)
    requires RowsDistinct(s.pending) && p.email == email && p.phone == phone
    requires var h := Gather(s, email, phone);
      h.byEmail in {None, Some(id)} && h.byPhone in {None, Some(id)}
    ensures AddressesFree(Gather(s, email, phone).rows, id, p)
  {
    LookupsExact(s, email, phone);
    hide RowsDistinct;
  }

  lemma GatherKeeps(s: Accounts, email: string, phone: Option<string>, m: nat)
    requires Valid(s, m)
    ensures var h := Gather(s, email, phone);
      NoNewCodes(s.otp, h.otp) && Valid(s.(otp := h.otp), m) && Valid(s.(otp := h.otp, pending := h.rows), m)
  {
    hide Valid;
    var h := Gather(s, email, phone);
    CodesLost(s, h.otp, m);
    var e, p := PendingByEmail(s, email), PendingByPhone(s, phone);
    var gone := (if Lapsed(s, e) then {e.value} else {}) + (if p != e && Lapsed(s, p) then {p.value} else {});
    RowsDropped(s.(otp := h.otp), gone, m);
    assert h.rows == s.pending - gone;
  }

  lemma FreshKeeps(s: Accounts, p: Pending, m: nat)
    requires Valid(s, m) && AddressesFree(s.pending, s.next, p) && p.completedUser.None?
    requires RowFine(p, Track(p.kind, s.clock, s.clock, 1), s.clock, m)
    ensures Valid(s.(pending := s.pending[s.next := p], next := s.next + 1,
                     tracks := s.tracks[s.next := Track(p.kind, s.clock, s.clock, 1)]), m)
  {
    hide RowsDistinct, UsersDistinct, LinksDistinct, TracksBelow, UsersBelow;
    hide LinksExist, RowsFine, CodesFine, LivesFine, AllCanLogin;
    hide AddressesFree, RowFine;
    LaterStillValid(s, s.next + 1, s.clock, m);
    RowPut(s.(next := s.next + 1), s.next, p, Track(p.kind, s.clock, s.clock, 1), m);
  }

  lemma RepreparedKeeps(s: Accounts, id: Id, email: string, phone: Option<string>,
      password: PasswordHash, kind: Kind, cfg: Settings, m: nat)
    requires Valid(s, m)
    requires id in s.pending ==>
      && s.pending[id].completedUser.None? && s.pending[id].kind == kind
      && AddressesFree(s.pending, id, FreshRow(s, email, phone, password, kind, cfg))
      && forall ch: Channel :: Slot(id, ch) !in s.otp.codes
    ensures Valid(Reprepared(s, id, email, phone, password, kind, cfg), m)
  {
    hide RowsDistinct, UsersDistinct, LinksDistinct, CodesBelow, UsersBelow;
    hide LinksExist, CodesFine, AllCanLogin, OriginsFine, AddressesFree;
    if id in s.pending && id in s.tracks {
      var p := FreshRow(s, email, phone, password, kind, cfg).(oauth := s.pending[id].oauth);
      assert AddressesFree(s.pending, id, p) by {
        assert AddressesFree(s.pending, id, FreshRow(s, email, phone, password, kind, cfg));
        SameAddresses(s.pending, id, FreshRow(s, email, phone, password, kind, cfg), p);
      }
      assert LifeFine(id, s.pending[id], s.origins, s.users);
      RowPut(s, id, p, Track(s.tracks[id].kind, s.clock, s.clock, s.tracks[id].preparations + 1), m);
    }
  }

  lemma SameAddresses(rows: map<Id, Pending>, id: Id, p: Pending, q: Pending)
    requires AddressesFree(rows, id, p) && p.email == q.email && p.phone == q.phone
    ensures AddressesFree(rows, id, q)
  {
  }

  lemma PrepareFreshKeeps(s: Accounts, email: string, phone: Option<string>, password: PasswordHash,
      kind: Kind, cfg: Settings, m: nat)
    requires Valid(s, m) && Gather(s, email, phone).byEmail.None? && Gather(s, email, phone).byPhone.None?
    ensures Valid(Prepare(s, email, phone, password, kind, cfg).0, m)
  {
    assert RowsDistinct(s.pending);
    hide Valid, RowsDistinct, AddressesFree, NoNewCodes;
    var p := FreshRow(s, email, phone, password, kind, cfg);
    GatherKeeps(s, email, phone, m);
    GatheredFree(s, email, phone, s.next, p);
    hide Gather;
    FreshKeeps(s.(otp := Gather(s, email, phone).otp, pending := Gather(s, email, phone).rows), p, m);
  }

  lemma PrepareAgainKeeps(s: Accounts, email: string, phone: Option<string>, password: PasswordHash,
      kind: Kind, cfg: Settings, id: Id, m: nat)
    requires Valid(s, m) && !Blocks(s, Some(id), kind)
    requires Gather(s, email, phone).byEmail in {None, Some(id)} && Gather(s, email, phone).byPhone in {None, Some(id)}
    ensures var h := Gather(s, email, phone);
      Valid(Reprepared(s.(otp := ClearSession(h.otp, id), pending := h.rows), id, email, phone, password, kind, cfg), m)
  {
    var h := Gather(s, email, phone);
    assert RowsDistinct(s.pending) && id in h.rows ==> id in s.pending && h.rows[id] == s.pending[id];
    hide Valid, RowsDistinct, AddressesFree, NoNewCodes, Reprepared, ClearSession;
    GatherKeeps(s, email, phone, m);
    ClearingLosesCodes(h.otp, id);
    CodesLost(s.(otp := h.otp, pending := h.rows), ClearSession(h.otp, id), m);
    var s1 := s.(otp := ClearSession(h.otp, id), pending := h.rows);
    GatheredFree(s, email, phone, id, FreshRow(s1, email, phone, password, kind, cfg));
    hide Gather;
    RepreparedKeeps(s1, id, email, phone, password, kind, cfg, m);
  }

  lemma PrepareKeeps(s: Accounts, email: string, phone: Option<string>, password: PasswordHash,
      kind: Kind, cfg: Settings, m: nat)
    requires Valid(s, m)
    ensures Valid(Prepare(s, email, phone, password, kind, cfg).0, m)
  {
    var h := Gather(s, email, phone);
    hide Valid, Reprepared, Gather, ClearSession;
    if Blocks(s, h.byEmail, kind) || Blocks(s, h.byPhone, kind)
        || (h.byEmail.Some? && h.byPhone.Some? && h.byEmail != h.byPhone) {
      GatherKeeps(s, email, phone, m);
    } else if h.byEmail.None? && h.byPhone.None? {
      PrepareFreshKeeps(s, email, phone, password, kind, cfg, m);
    } else {
      PrepareAgainKeeps(s, email, phone, password, kind, cfg, if h.byEmail.Some? then h.byEmail.value
        else h.byPhone.value, m);
    }
  }

  // ----- codes

  lemma SentKeeps(s: Accounts, id: Id, ch: Channel, m: nat)
    requires Valid(s, m) && id in s.pending
    ensures Valid(s.(pending := s.pending[id := Sent(s.pending[id], ch, s.clock)]), m)
  {
    hide RowsDistinct, UsersDistinct, LinksDistinct, TracksBelow, CodesBelow, UsersBelow;
    hide LinksExist, CodesFine, LivesFine, AllCanLogin, OriginsFine;
    RowTouched(s, id, Sent(s.pending[id], ch, s.clock), m);
  }

  lemma SendCodeKeeps(s: Accounts, id: Id, ch: Channel, code: string, dispatched: Option<string>, cfg: Settings, m: nat)
    requires Valid(s, m) && id in s.pending
    ensures Valid(SendCode(s, id, ch, code, dispatched, cfg).0, m)
  {
    hide Valid, Sent, Accepts, RetryAfter;
    var slot := Slot(id, ch);
    var s1 := s.(otp := CountSend(s.otp, slot, s.clock));
    CodesLost(s, s1.otp, m);
    if dispatched.Some? {
      var state := ProviderState(dispatched.value, Address(s.pending[id], ch));
      var counted := s1.otp.(provider := Redis.SetEx(s1.otp.provider, slot, state, s.clock, cfg.providerTtl));
      CodesLost(s1, counted, m);
      SentKeeps(s1.(otp := counted), id, ch, m);
    }
    var s2 := s1.(otp := StoreCode(s1.otp, slot, code, s.clock, cfg.codeTtl),
      issuedTo := s1.issuedTo[slot := Address(s.pending[id], ch)]);
    CodeStored(s1, id, ch, s2.otp, m);
    SentKeeps(s2, id, ch, m);
  }

  lemma SendChannelKeeps(s: Accounts, id: Id, kind: Kind, ch: Channel, resend: bool, code: string,
      dispatched: Option<string>, cfg: Settings, m: nat)
    requires Valid(s, m)
    ensures Valid(SendChannel(s, id, kind, ch, resend, code, dispatched, cfg).0, m)
  {
    hide Valid, SendCode;
    EnterKeeps(s, id, kind, ch, cfg, m);
    if Enter(s, id, kind, ch, cfg).1.None? {
      SendCodeKeeps(s, id, ch, code, dispatched, cfg, m);
    }
  }

  lemma FailedKeeps(s: Accounts, id: Id, ch: Channel, m: nat)
    requires Valid(s, m) && id in s.pending && StateOf(s.pending[id], ch).attempts < m
    ensures Valid(Failed(s, id, ch), m)
  {
    hide RowsDistinct, UsersDistinct, LinksDistinct, TracksBelow, CodesBelow, UsersBelow;
    hide LinksExist, CodesFine, LivesFine, AllCanLogin, OriginsFine;
    RowTouched(s, id, Failed(s, id, ch).pending[id], m);
  }

  lemma StampedKeeps(s: Accounts, id: Id, ch: Channel, m: nat)
    requires Valid(s, m) && id in s.pending
    ensures Valid(Stamped(s, id, ch), m)
  {
    hide RowsDistinct, UsersDistinct, LinksDistinct, TracksBelow, CodesBelow, UsersBelow;
    hide LinksExist, CodesFine, LivesFine, AllCanLogin, OriginsFine;
    RowTouched(s, id, Stamped(s, id, ch).pending[id], m);
  }

  lemma CheckCodeKeeps(s: Accounts, id: Id, ch: Channel, code: string, answer: ProviderAnswer, cfg: Settings)
    requires Valid(s, cfg.maxAttempts) && id in s.pending
    ensures Valid(CheckCode(s, id, ch, code, answer, cfg).0, cfg.maxAttempts)
  {
    hide Valid;
    var m := cfg.maxAttempts;
    if StateOf(s.pending[id], ch).attempts < m {
      FailedKeeps(s, id, ch, m);
      CodesLost(Failed(s, id, ch), ClearSlot(s.otp, Slot(id, ch)), m);
      StampedKeeps(s, id, ch, m);
      CodesLost(Stamped(s, id, ch), ClearSlot(s.otp, Slot(id, ch)), m);
      CodesLost(Stamped(s, id, ch), VerifyCode(s.otp, Slot(id, ch), code, s.clock).0, m);
    }
  }

  lemma VerifyChannelKeeps(s: Accounts, id: Id, kind: Kind, ch: Channel, code: string, answer: ProviderAnswer,
      cfg: Settings)
    requires Valid(s, cfg.maxAttempts)
    ensures Valid(VerifyChannel(s, id, kind, ch, code, answer, cfg).0, cfg.maxAttempts)
  {
    hide Valid, CheckCode;
    EnterKeeps(s, id, kind, ch, cfg, cfg.maxAttempts);
    if Enter(s, id, kind, ch, cfg).1.None? {
      CheckCodeKeeps(s, id, ch, code, answer, cfg);
    }
  }

  lemma SetGooglePhoneKeeps(s: Accounts, id: Id, phone: string, m: nat)
    requires Valid(s, m)
    ensures Valid(SetGooglePhone(s, id, phone).0, m)
  {
    LoadKeeps(s, id, false, m);
    hide UsersDistinct, LinksDistinct, CodesBelow, UsersBelow, LinksExist, CodesFine, AllCanLogin, OriginsFine, Load;
    if SetGooglePhone(s, id, phone).1.None? {
      var p := PhoneReplaced(s, id, phone).pending[id];
      assert AddressesFree(s.pending, id, p) by {
        LookupsExact(s, p.email, Some(phone));
      }
      hide RowsDistinct;
      assert LifeFine(id, s.pending[id], s.origins, s.users);
      RowPut(s, id, p, s.tracks[id].(phoneSetAt := s.clock), m);
    }
  }

  // ----- completion

  lemma OriginAdded(s: Accounts, u: Id, o: Origin, m: nat)
    requires Valid(s, m) && u in s.users && u !in s.origins && o.session < s.next && OriginFine(s.users[u], o)
    requires forall v :: v in s.origins ==> s.origins[v].session != o.session
    requires o.session in s.pending ==> s.pending[o.session].completedUser.Some?
    ensures Valid(s.(origins := s.origins[u := o]), m)
  {
    hide RowsDistinct, UsersDistinct, LinksDistinct, TracksBelow, CodesBelow, UsersBelow;
    hide LinksExist, RowsFine, CodesFine, AllCanLogin, OriginFine;
    forall id | id in s.pending
      ensures LifeFine(id, s.pending[id], s.origins[u := o], s.users)
    {
      assert LifeFine(id, s.pending[id], s.origins, s.users);
    }
  }

  /** The row marked complete once its codes are gone. */
  lemma MarkedComplete(s: Accounts, id: Id, u: Id, oauth: Option<OAuth>, m: nat)
    requires Valid(s, m) && id in s.pending && u in s.users
    ensures Valid(s.(pending := s.pending[id := s.pending[id].(completedUser := Some(u), oauth := oauth)],
      otp := ClearSession(s.otp, id)), m)
  {
    var otp := ClearSession(s.otp, id);
    ClearingLosesCodes(s.otp, id);
    CodesLost(s, otp, m);
    hide UsersDistinct, LinksDistinct, CodesBelow, UsersBelow, LinksExist;
    hide CodesFine, LivesFine, AllCanLogin, OriginsFine, ClearSession;
    RowPut(s.(otp := otp), id, s.pending[id].(completedUser := Some(u), oauth := oauth), s.tracks[id], m);
    assert s.tracks[id := s.tracks[id]] == s.tracks;
  }

  predicate ReadyToComplete(p: Pending) {
    p.completedUser.None? && p.emailState.verifiedAt.Some? && (p.kind == Candidate ==> p.phoneState.verifiedAt.Some?)
  }

  function LinkOf(p: Pending): Option<SocialKey> {
    if p.oauth.Some? then Some(SocialKey(p.oauth.value.provider, p.oauth.value.account)) else None
  }

  lemma ReadyFacts(s: Accounts, id: Id, m: nat)
    requires Valid(s, m) && id in s.pending && ReadyToComplete(s.pending[id])
    ensures id in s.tracks && id < s.next && s.next !in s.origins
    ensures s.pending[id].password.Some? || s.pending[id].oauth.Some?
    ensures forall v :: v in s.origins ==> s.origins[v].session != id
    ensures OriginFine(NewUser(s.pending[id]),
      Origin(id, s.pending[id].kind, s.tracks[id].emailSetAt, s.tracks[id].phoneSetAt))
  {
    hide RowsDistinct, UsersDistinct, LinksDistinct, CodesBelow, LinksExist, CodesFine, AllCanLogin;
    assert LifeFine(id, s.pending[id], s.origins, s.users);
  }

  lemma UserCreatedKeeps(s: Accounts, id: Id, m: nat)
    requires Valid(s, m) && id in s.pending && ReadyToComplete(s.pending[id])
    requires !UserClash(s, s.pending[id].email, s.pending[id].phone)
    requires LinkOf(s.pending[id]).Some? ==> LinkOf(s.pending[id]).value !in s.social
    ensures Valid(UserCreated(s, id), m)
  {
    hide Valid, UserClash, ClearSession, OriginFine;
    ReadyFacts(s, id, m);
    var p, t, u := s.pending[id], s.tracks[id], s.next;
    UserAdded(s, NewUser(p), LinkOf(p), m);
    var s1 := s.(users := s.users[u := NewUser(p)], next := u + 1, social := LinkIf(s.social, LinkOf(p), u));
    MarkedComplete(s1, id, u, None, m);
    var s2 := s1.(pending := s1.pending[id := p.(completedUser := Some(u), oauth := None)],
      otp := ClearSession(s.otp, id));
    OriginAdded(s2, u, Origin(id, p.kind, t.emailSetAt, t.phoneSetAt), m);
  }

  lemma CompleteKeeps(s: Accounts, id: Id, kind: Kind, m: nat)
    requires Valid(s, m)
    ensures Valid(Complete(s, id, kind).0, m)
  {
    LoadKeeps(s, id, true, m);
    hide Valid, UserCreated, UserClash, Load;
    if Load(s, id, true).1.None? {
      var p := s.pending[id];
      if p.kind == kind && ReadyToComplete(p) {
        if UserClash(s, p.email, p.phone) {
          var u := ExistingAccount(s, p);
          if u.Some? && p.oauth.None? {
            MarkedComplete(s, id, u.value, None, m);
          }
        } else if LinkOf(p).None? || LinkOf(p).value !in s.social {
          UserCreatedKeeps(s, id, m);
        }
      }
    }
  }

  // ----- providers and passwords

  lemma GooglePendingKeeps(s: Accounts, account: string, email: string, cfg: Settings, m: nat)
    requires Valid(s, m) && forall id :: id in s.pending ==> s.pending[id].email != email
    ensures Valid(GooglePending(s, account, email, cfg), m)
  {
    hide Valid;
    FreshKeeps(s, GooglePending(s, account, email, cfg).pending[s.next], m);
  }

  lemma GoogleCallbackKeeps(s: Accounts, account: string, email: string, cfg: Settings, m: nat)
    requires Valid(s, m)
    ensures Valid(GoogleCallback(s, account, email, cfg).0, m)
  {
    var existing := PendingByEmail(s, email);
    var gone := if existing.Some? then {existing.value} else {};
    LookupsExact(s, email, None);
    hide Valid, GooglePending, RowsDistinct, UserByEmail, PendingByEmail, Usable, Expired, FreshRow;
    RowsDropped(s, gone, m);
    assert s.pending - {} == s.pending;
    GooglePendingKeeps(s.(pending := s.pending - gone), account, email, cfg, m);
  }

  lemma OAuthCallbackKeeps(s: Accounts, provider: string, account: string, email: string, m: nat)
    requires Valid(s, m)
    ensures Valid(OAuthCallback(s, provider, account, email).0, m)
  {
    hide Valid, UserClash;
    var key := SocialKey(provider, account);
    if key !in s.social {
      if UserByEmail(s, email).None? {
        if !UserClash(s, email, None) {
          UserAdded(s, User(email, None, None, Some(s.clock), None, true, None), Some(key), m);
        }
      } else {
        var u := UserByEmail(s, email).value;
        if !Linked(s, u, provider) {
          UserPut(s, u, EmailConfirmed(s.users[u], s.clock), m);
          LinkPut(s.(users := s.users[u := EmailConfirmed(s.users[u], s.clock)]), key, u, m);
        }
      }
    }
  }

  lemma WithPasswordKeeps(s: Accounts, u: Id, password: string, m: nat)
    requires Valid(s, m) && u in s.users
    ensures Valid(WithPassword(s, u, password), m)
  {
    hide Valid;
    UserPut(s, u, s.users[u].(password := Some(PasswordHash(password))), m);
  }

  lemma LinkProviderKeeps(s: Accounts, u: Id, provider: string, profile: Option<string>, m: nat)
    requires Valid(s, m)
    ensures Valid(LinkProvider(s, u, provider, profile).0, m)
  {
    hide Valid;
    if LinkProvider(s, u, provider, profile).1.None? {
      LinkPut(s, SocialKey(provider, profile.value), u, m);
    }
  }

  /** Two links cannot both be the one that is removed, so a user without a password keeps a link. */
  lemma AnotherLink(s: Accounts, u: Id, provider: string) returns (k: SocialKey)
    requires LinksDistinct(s.social) && |LinksOf(s, u)| > 1
    ensures k in s.social && s.social[k] == u && k.provider != provider
  {
    var links := LinksOf(s, u);
    k :| k in links;
    if k.provider == provider {
      var rest := links - {k};
      assert |rest| == |links| - 1;
      var l :| l in rest;
      k := l;
    }
  }

  lemma UnlinkProviderKeeps(s: Accounts, u: Id, provider: string, m: nat)
    requires Valid(s, m)
    ensures Valid(UnlinkProvider(s, u, provider).0, m)
  {
    hide RowsDistinct, UsersDistinct, TracksBelow, CodesBelow, UsersBelow, RowsFine, CodesFine, LivesFine, OriginsFine;
    if UnlinkProvider(s, u, provider).1.None? {
      var social := UnlinkProvider(s, u, provider).0.social;
      forall v | v in s.users
        ensures HasLogin(v, s.users[v], social)
      {
        assert HasLogin(v, s.users[v], s.social);
        if v == u && s.users[u].password.None? {
          var k := AnotherLink(s, u, provider);
          assert k in social && social[k] == u;
        } else if v != u && s.users[v].password.None? {
          var k :| k in s.social && s.social[k] == v;
          assert k in social && social[k] == v;
        }
      }
    }
  }

  lemma SetActiveKeeps(s: Accounts, u: Id, active: bool, m: nat)
    requires Valid(s, m)
    ensures Valid(SetActive(s, u, active), m)
  {
    hide Valid;
    if u in s.users {
      UserPut(s, u, s.users[u].(active := active), m);
    }
  }

  lemma SoftDeleteKeeps(s: Accounts, u: Id, m: nat)
    requires Valid(s, m)
    ensures Valid(SoftDelete(s, u), m)
  {
    hide Valid;
    if u in s.users {
      UserPut(s, u, s.users[u].(deletedAt := Some(s.clock)), m);
    }
  }
}
