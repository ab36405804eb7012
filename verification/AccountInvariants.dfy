/** What every service call keeps of the account tables, and the elementary changes that keep it. */
module AccountInvariants {
  import opened Common
  import opened Redis
  import opened SignupOtp
  import opened Accounts

  // ----- the uniqueness constraints of the tables

  ghost predicate RowsDistinct(rows: map<Id, Pending>) {
    forall i, j :: i in rows && j in rows && i != j ==>
      rows[i].email != rows[j].email && (rows[i].phone.Some? ==> rows[i].phone != rows[j].phone)
  }

  ghost predicate UsersDistinct(users: map<Id, User>) {
    forall u, v :: u in users && v in users && u != v ==>
      users[u].email != users[v].email && (users[u].phone.Some? ==> users[u].phone != users[v].phone)
  }

  ghost predicate LinksDistinct(social: map<SocialKey, Id>) {
    forall k, l :: k in social && l in social && k != l && social[k] == social[l] ==> k.provider != l.provider
  }

  // ----- ids and references

  ghost predicate TracksBelow(tracks: map<Id, Track>, next: Id) {
    forall id :: id in tracks ==> id < next
  }

  ghost predicate CodesBelow(codes: Keyspace<Slot, CodeHash>, next: Id) {
    forall slot :: slot in codes ==> slot.session < next
  }

  ghost predicate UsersBelow(users: map<Id, User>, next: Id) {
    forall u :: u in users ==> u < next
  }

  ghost predicate LinksExist(social: map<SocialKey, Id>, users: map<Id, User>) {
    forall k :: k in social ==> social[k] in users
  }

  // ----- the sessions

  /** A stamp was set at or after the moment its address was last set. */
  predicate StampFine(c: ChannelState, setAt: Time, now: Time) {
    c.verifiedAt.Some? ==> setAt <= c.verifiedAt.value <= now
  }

  predicate RowFine(p: Pending, t: Track, now: Time, maxAttempts: nat) {
    && p.kind == t.kind
    && t.emailSetAt <= now && t.phoneSetAt <= now
    && StampFine(p.emailState, t.emailSetAt, now) && StampFine(p.phoneState, t.phoneSetAt, now)
    && p.emailState.attempts <= maxAttempts && p.phoneState.attempts <= maxAttempts
    && (p.completedUser.None? ==> p.password.Some? || p.oauth.Some?)
  }

  ghost predicate RowsFine(rows: map<Id, Pending>, tracks: map<Id, Track>, now: Time, maxAttempts: nat) {
    forall id :: id in rows ==> id in tracks && RowFine(rows[id], tracks[id], now, maxAttempts)
  }

  /** A stored code of this session was issued for the session's present address. */
  ghost predicate CodesMatch(id: Id, p: Pending, codes: Keyspace<Slot, CodeHash>, issuedTo: map<Slot, string>) {
    forall ch: Channel :: Slot(id, ch) in codes ==> Slot(id, ch) in issuedTo && issuedTo[Slot(id, ch)] == Address(p, ch)
  }

  /** ... which holds of every session without an OAuth provider. */
  ghost predicate CodesFine(rows: map<Id, Pending>, codes: Keyspace<Slot, CodeHash>, issuedTo: map<Slot, string>) {
    forall id :: id in rows && rows[id].oauth.None? ==> CodesMatch(id, rows[id], codes, issuedTo)
  }

  /** An open session has created no user; a completed one names an existing user. */
  ghost predicate LifeFine(id: Id, p: Pending, origins: map<Id, Origin>, users: map<Id, User>) {
    match p.completedUser
    case None => forall u :: u in origins ==> origins[u].session != id
    case Some(u) => u in users
  }

  ghost predicate LivesFine(rows: map<Id, Pending>, origins: map<Id, Origin>, users: map<Id, User>) {
    forall id :: id in rows ==> LifeFine(id, rows[id], origins, users)
  }

  // ----- the users

  /** A password, or a provider that vouches for the user. */
  ghost predicate HasLogin(u: Id, user: User, social: map<SocialKey, Id>) {
    user.password.Some? || exists k :: k in social && social[k] == u
  }

  ghost predicate AllCanLogin(users: map<Id, User>, social: map<SocialKey, Id>) {
    forall u :: u in users ==> HasLogin(u, users[u], social)
  }

  /** A user created from a candidate session was verified on both channels, after either address was last set. */
  predicate OriginFine(user: User, o: Origin) {
    o.kind == Candidate ==>
      && user.emailVerifiedAt.Some? && o.emailSetAt <= user.emailVerifiedAt.value
      && user.phoneVerifiedAt.Some? && o.phoneSetAt <= user.phoneVerifiedAt.value
  }

  /** Users and the sessions they came from; a session creates at most one user. */
  ghost predicate OriginsFine(origins: map<Id, Origin>, users: map<Id, User>, next: Id) {
    && (forall u :: u in origins ==> u in users && origins[u].session < next && OriginFine(users[u], origins[u]))
    && (forall u, v :: u in origins && v in origins && u != v ==> origins[u].session != origins[v].session)
  }

  ghost predicate Valid(s: Accounts, maxAttempts: nat) {
    && RowsDistinct(s.pending) && UsersDistinct(s.users) && LinksDistinct(s.social)
    && TracksBelow(s.tracks, s.next) && CodesBelow(s.otp.codes, s.next) && UsersBelow(s.users, s.next)
    && LinksExist(s.social, s.users)
    && RowsFine(s.pending, s.tracks, s.clock, maxAttempts)
    && CodesFine(s.pending, s.otp.codes, s.issuedTo)
    && LivesFine(s.pending, s.origins, s.users)
    && AllCanLogin(s.users, s.social)
    && OriginsFine(s.origins, s.users, s.next)
  }

  // ----- elementary changes

  ghost predicate NoNewCodes(before: OtpKeys, after: OtpKeys) {
    forall slot :: slot in after.codes ==> slot in before.codes
  }

  /** Redis may lose codes; counters and provider state are free. */
  lemma CodesLost(s: Accounts, otp: OtpKeys, m: nat)
    requires Valid(s, m) && NoNewCodes(s.otp, otp)
    ensures Valid(s.(otp := otp), m)
  {
    hide RowsDistinct, UsersDistinct, LinksDistinct, TracksBelow, UsersBelow;
    hide LinksExist, RowsFine, LivesFine, AllCanLogin, OriginsFine;
    forall id | id in s.pending && s.pending[id].oauth.None?
      ensures CodesMatch(id, s.pending[id], otp.codes, s.issuedTo)
    {
      assert CodesMatch(id, s.pending[id], s.otp.codes, s.issuedTo);
    }
  }

  lemma RowsDropped(s: Accounts, gone: set<Id>, m: nat)
    requires Valid(s, m)
    ensures Valid(s.(pending := s.pending - gone), m)
  {
    hide UsersDistinct, LinksDistinct, TracksBelow, CodesBelow, UsersBelow, LinksExist;
    hide AllCanLogin, OriginsFine, RowFine, LifeFine, CodesMatch;
  }

  /** No other row holds the email or the phone. */
  ghost predicate AddressesFree(rows: map<Id, Pending>, id: Id, p: Pending) {
    forall j :: j in rows && j != id ==> rows[j].email != p.email && (p.phone.Some? ==> rows[j].phone != p.phone)
  }

  /** One row written, with its history. */
  lemma RowPut(s: Accounts, id: Id, p: Pending, t: Track, m: nat)
    requires Valid(s, m) && id < s.next
    requires AddressesFree(s.pending, id, p) && RowFine(p, t, s.clock, m)
    requires p.oauth.None? ==> CodesMatch(id, p, s.otp.codes, s.issuedTo)
    requires LifeFine(id, p, s.origins, s.users)
    ensures Valid(s.(pending := s.pending[id := p], tracks := s.tracks[id := t]), m)
  {
    hide UsersDistinct, LinksDistinct, CodesBelow, UsersBelow, LinksExist;
    hide AllCanLogin, OriginsFine, RowFine, LifeFine, CodesMatch;
  }

  /** A row rewritten with the addresses, password, kind and completion it had. */
  lemma RowTouched(s: Accounts, id: Id, p: Pending, m: nat)
    requires Valid(s, m) && id in s.pending
    requires p == s.pending[id].(emailState := p.emailState, phoneState := p.phoneState, expiresAt := p.expiresAt)
    requires RowFine(p, s.tracks[id], s.clock, m)
    ensures Valid(s.(pending := s.pending[id := p]), m)
  {
    hide UsersDistinct, LinksDistinct, CodesBelow, UsersBelow, LinksExist, AllCanLogin, OriginsFine, RowFine;
    if p.oauth.None? {
      assert CodesMatch(id, s.pending[id], s.otp.codes, s.issuedTo);
      assert CodesMatch(id, p, s.otp.codes, s.issuedTo);
    }
    assert LifeFine(id, s.pending[id], s.origins, s.users);
    assert LifeFine(id, p, s.origins, s.users);
    RowPut(s, id, p, s.tracks[id], m);
    assert s.tracks[id := s.tracks[id]] == s.tracks;
  }

  /** A code stored for the present address of a session. */
  lemma CodeStored(s: Accounts, id: Id, ch: Channel, otp: OtpKeys, m: nat)
    requires Valid(s, m) && id in s.pending
    requires forall slot :: slot in otp.codes ==> slot in s.otp.codes || slot == Slot(id, ch)
    ensures Valid(s.(otp := otp, issuedTo := s.issuedTo[Slot(id, ch) := Address(s.pending[id], ch)]), m)
  {
    hide RowsDistinct, UsersDistinct, LinksDistinct, UsersBelow, LinksExist;
    hide LivesFine, AllCanLogin, OriginsFine, RowFine, Address;
    var issuedTo := s.issuedTo[Slot(id, ch) := Address(s.pending[id], ch)];
    forall j | j in s.pending && s.pending[j].oauth.None?
      ensures CodesMatch(j, s.pending[j], otp.codes, issuedTo)
    {
      assert CodesMatch(j, s.pending[j], s.otp.codes, s.issuedTo);
    }
  }

  /** Ids handed out, time passed. */
  lemma LaterStillValid(s: Accounts, next: Id, clock: Time, m: nat)
    requires Valid(s, m) && s.next <= next && s.clock <= clock
    ensures Valid(s.(next := next, clock := clock), m)
  {
    hide RowsDistinct, UsersDistinct, LinksDistinct, LinksExist, CodesFine, LivesFine, AllCanLogin, OriginFine;
  }

  /** One existing user rewritten: same addresses, stamps only ever added, and still a way to log in. */
  lemma UserPut(s: Accounts, u: Id, user: User, m: nat)
    requires Valid(s, m) && u in s.users
    requires user.email == s.users[u].email && user.phone == s.users[u].phone
    requires user.password.Some? || user.password == s.users[u].password
    requires s.users[u].emailVerifiedAt.Some? ==> user.emailVerifiedAt == s.users[u].emailVerifiedAt
    requires s.users[u].phoneVerifiedAt.Some? ==> user.phoneVerifiedAt == s.users[u].phoneVerifiedAt
    ensures Valid(s.(users := s.users[u := user]), m)
  {
    hide RowsDistinct, LinksDistinct, TracksBelow, CodesBelow, RowsFine, CodesFine;
    assert LivesFine(s.pending, s.origins, s.users[u := user]) by {
      hide UsersDistinct, UsersBelow, LinksExist, AllCanLogin, OriginsFine;
      forall id | id in s.pending
        ensures LifeFine(id, s.pending[id], s.origins, s.users[u := user])
      {
        assert LifeFine(id, s.pending[id], s.origins, s.users);
      }
    }
    hide LivesFine;
    assert AllCanLogin(s.users[u := user], s.social) by {
      hide UsersDistinct, UsersBelow, LinksExist, OriginsFine;
      assert HasLogin(u, s.users[u], s.social);
    }
  }

  /** A link added for an existing user who has none with this provider. */
  lemma LinkPut(s: Accounts, key: SocialKey, u: Id, m: nat)
    requires Valid(s, m) && u in s.users && key !in s.social && !Linked(s, u, key.provider)
    ensures Valid(s.(social := s.social[key := u]), m)
  {
    hide RowsDistinct, UsersDistinct, TracksBelow, CodesBelow, UsersBelow, RowsFine, CodesFine, LivesFine, OriginsFine;
    StillLogin(s.users, s.social, s.social[key := u]);
  }

  ghost predicate LinksKept(before: map<SocialKey, Id>, after: map<SocialKey, Id>) {
    forall k :: k in before ==> k in after && after[k] == before[k]
  }

  lemma StillLogin(users: map<Id, User>, before: map<SocialKey, Id>, after: map<SocialKey, Id>)
    requires AllCanLogin(users, before) && LinksKept(before, after)
    ensures AllCanLogin(users, after)
  {
    forall u | u in users
      ensures HasLogin(u, users[u], after)
    {
      assert HasLogin(u, users[u], before);
      if k :| k in before && before[k] == u {
        assert k in after && after[k] == u;
      }
    }
  }

  /** A link of some user, if the key is set. */
  function LinkIf(social: map<SocialKey, Id>, key: Option<SocialKey>, u: Id): map<SocialKey, Id> {
    if key.Some? then social[key.value := u] else social
  }

  /** The tables of users and links once a user with fresh addresses is added under an unused id. */
  lemma UserInserted(s: Accounts, u: Id, user: User, key: Option<SocialKey>)
    requires UsersDistinct(s.users) && UsersBelow(s.users, u) && LinksExist(s.social, s.users)
      && LinksDistinct(s.social)
    requires AllCanLogin(s.users, s.social) && !UserClash(s, user.email, user.phone)
    requires user.password.Some? || key.Some?
    requires key.Some? ==> key.value !in s.social
    ensures u !in s.users
    ensures var users, social := s.users[u := user], LinkIf(s.social, key, u);
      && UsersDistinct(users) && UsersBelow(users, u + 1) && LinksExist(social, users) && LinksDistinct(social)
      && AllCanLogin(users, social)
  {
    assert AllCanLogin(s.users[u := user], LinkIf(s.social, key, u)) by {
      hide UsersDistinct, LinksExist, LinksDistinct;
      StillLogin(s.users, s.social, LinkIf(s.social, key, u));
      if key.Some? {
        assert key.value in LinkIf(s.social, key, u) && LinkIf(s.social, key, u)[key.value] == u;
      }
      assert HasLogin(u, user, LinkIf(s.social, key, u));
    }
  }

  /** Sessions and origins go on naming existing users when one is added. */
  lemma ReferencesKept(s: Accounts, u: Id, user: User)
    requires LivesFine(s.pending, s.origins, s.users) && OriginsFine(s.origins, s.users, u) && u !in s.users
    ensures LivesFine(s.pending, s.origins, s.users[u := user]) && OriginsFine(s.origins, s.users[u := user], u + 1)
  {
    forall id | id in s.pending
      ensures LifeFine(id, s.pending[id], s.origins, s.users[u := user])
    {
      assert LifeFine(id, s.pending[id], s.origins, s.users);
    }
  }

  /** A new user under a fresh id, with its link if it has one. */
  lemma UserAdded(s: Accounts, user: User, key: Option<SocialKey>, m: nat)
    requires Valid(s, m) && !UserClash(s, user.email, user.phone)
    requires user.password.Some? || key.Some?
    requires key.Some? ==> key.value !in s.social
    ensures Valid(s.(users := s.users[s.next := user], next := s.next + 1, social := LinkIf(s.social, key, s.next)), m)
  {
    LaterStillValid(s, s.next + 1, s.clock, m);
    hide RowsDistinct, UsersDistinct, LinksDistinct, TracksBelow, CodesBelow, UsersBelow, LinksExist, RowsFine,
      CodesFine;
    hide LivesFine, AllCanLogin, OriginsFine, HasLogin, UserClash, LinkIf;
    UserInserted(s, s.next, user, key);
    ReferencesKept(s, s.next, user);
  }
}
