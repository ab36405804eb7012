/** Refresh-token families: issue, rotate, revoke (app/auth/service.py, app/repositories/refresh_token.py). */
module RefreshSessions {
  import opened Common

  type Id = nat
  type Time = int

  /** A row; its position is its id and stands for its hash. `rotatedFrom` is history: the source leaves
      `replaced_by_id` empty. */
  datatype RefreshToken = RefreshToken(user: Id, family: Id, expiresAt: Time, revokedAt: Option<Time>,
      rotatedFrom: Option<nat>)

  type Sessions = seq<RefreshToken>

  datatype RefreshError = UnknownToken | TokenReused | TokenExpired | UserRejected

  // ----- the operations

  /** A login starts a family under a fresh id; the row's own position serves as one. */
  function Issue(s: Sessions, user: Id, now: Time, ttl: nat): Sessions {
    s + [RefreshToken(user, |s|, now + ttl, None, None)]
  }

  function RevokedRow(t: RefreshToken, now: Time): RefreshToken {
    t.(revokedAt := Some(now))
  }

  function Revoke(s: Sessions, k: nat, now: Time): Sessions
    requires k < |s|
  {
    s[k := RevokedRow(s[k], now)]
  }

  /** UPDATE ... SET revoked_at = now WHERE family_id = f AND revoked_at IS NULL */
  function RevokeFamily(s: Sessions, f: Id, now: Time): Sessions {
    seq(|s|, i requires 0 <= i < |s| => if s[i].family == f && s[i].revokedAt.None? then RevokedRow(s[i], now)
      else s[i])
  }

  function RevokeAllForUser(s: Sessions, user: Id, now: Time): Sessions {
    seq(|s|, i requires 0 <= i < |s| => if s[i].user == user && s[i].revokedAt.None? then RevokedRow(s[i], now)
      else s[i])
  }

  function RevokeAllExceptFamily(s: Sessions, user: Id, f: Id, now: Time): Sessions {
    seq(|s|, i requires 0 <= i < |s| =>
      if s[i].user == user && s[i].family != f && s[i].revokedAt.None? then RevokedRow(s[i], now) else s[i])
  }

  /** The old token revoked, its successor added to the same family. */
  function Rotate(s: Sessions, k: nat, now: Time, ttl: nat): Sessions
    requires k < |s|
  {
    Revoke(s, k, now) + [RefreshToken(s[k].user, s[k].family, now + ttl, None, Some(k))]
  }

  /** `refresh`: reuse of a revoked token ends its family; otherwise a live token of an accepted user is rotated. */
  function Refresh(s: Sessions, k: nat, userAccepted: bool, now: Time, ttl: nat): (Sessions, Result<nat,
      RefreshError>) {
    if k >= |s| then (s, Failure(UnknownToken))
    else if s[k].revokedAt.Some? then (RevokeFamily(s, s[k].family, now), Failure(TokenReused))
    else if s[k].expiresAt <= now then (s, Failure(TokenExpired))
    else if !userAccepted then (s, Failure(UserRejected))
    else (Rotate(s, k, now, ttl), Success(|s|))
  }

  function Logout(s: Sessions, k: nat, now: Time): Sessions {
    if k < |s| && s[k].revokedAt.None? then Revoke(s, k, now) else s
  }

  predicate ActiveRow(t: RefreshToken, user: Id, f: Id, now: Time) {
    t.user == user && t.family == f && t.revokedAt.None? && t.expiresAt > now
  }

  predicate HasActiveFamily(s: Sessions, user: Id, f: Id, now: Time) {
    exists i :: 0 <= i < |s| && ActiveRow(s[i], user, f, now)
  }

  // ----- runs

  datatype Step =
    | Issued(user: Id, now: Time)
    | Refreshed(k: nat, userAccepted: bool, now: Time)
    | LoggedOut(k: nat, now: Time)
    | AllRevoked(user: Id, now: Time)                 // password reset, and revocation by an administrator
    | OthersRevoked(user: Id, family: Id, now: Time)  // "sign out everywhere else" of the account settings
    | FamilyRevoked(family: Id, now: Time)
    | Nothing

  function Apply(s: Sessions, step: Step, ttl: nat): Sessions {
    match step
    case Issued(user, now) => Issue(s, user, now, ttl)
    case Refreshed(k, accepted, now) => Refresh(s, k, accepted, now, ttl).0
    case LoggedOut(k, now) => Logout(s, k, now)
    case AllRevoked(user, now) => RevokeAllForUser(s, user, now)
    case OthersRevoked(user, f, now) => RevokeAllExceptFamily(s, user, f, now)
    case FamilyRevoked(f, now) => RevokeFamily(s, f, now)
    case Nothing => s
  }

  function Run(s: Sessions, steps: seq<Step>, ttl: nat): Sessions
    decreases |steps|
  {
    if steps == [] then s else Run(Apply(s, steps[0], ttl), steps[1..], ttl)
  }

  // ----- invariants

  /** The family id is the position of the family's first token, and the token has that token's owner. */
  ghost predicate Owned(s: Sessions, i: nat)
    requires i < |s|
  {
    var f := s[i].family;
    f <= i && s[f].family == f && s[f].user == s[i].user
  }

  /** One owner per family. */
  ghost predicate FamiliesOwned(s: Sessions) {
    forall i :: 0 <= i < |s| ==> Owned(s, i)
  }

  /** Of a family's tokens only the newest can be unrevoked. */
  ghost predicate OnlyNewestLive(s: Sessions) {
    forall i, j :: 0 <= i < j < |s| && s[i].family == s[j].family ==> s[i].revokedAt.Some?
  }

  /** A first token starts its family; any other was rotated from an earlier token of the family, now revoked. */
  ghost predicate Sourced(s: Sessions, j: nat)
    requires j < |s|
  {
    match s[j].rotatedFrom
    case None => s[j].family == j
    case Some(k) => k < j && s[k].family == s[j].family && s[k].revokedAt.Some?
  }

  /** A token has at most one successor. */
  ghost predicate SuccessorsUnique(s: Sessions) {
    && (forall j :: 0 <= j < |s| ==> Sourced(s, j))
    && (forall i, j :: 0 <= i < j < |s| && s[i].rotatedFrom.Some? ==> s[i].rotatedFrom != s[j].rotatedFrom)
  }

  ghost predicate WellFormed(s: Sessions) {
    FamiliesOwned(s) && OnlyNewestLive(s) && SuccessorsUnique(s)
  }

  /** The rows of `s` are still there, and a revoked one is still revoked. */
  ghost predicate OnlyRevokes(s: Sessions, s': Sessions) {
    && |s| == |s'|
    && forall i :: 0 <= i < |s| ==>
      s'[i].(revokedAt := s[i].revokedAt) == s[i] && (s[i].revokedAt.Some? ==> s'[i].revokedAt.Some?)
  }

  lemma RevokingKeeps(s: Sessions, s': Sessions)
    requires WellFormed(s) && OnlyRevokes(s, s')
    ensures WellFormed(s')
  {
    forall i | 0 <= i < |s|
      ensures s'[i].family == s[i].family && s'[i].user == s[i].user && s'[i].rotatedFrom == s[i].rotatedFrom
    {
      assert s'[i].(revokedAt := s[i].revokedAt) == s[i];
    }
    forall i | 0 <= i < |s|
      ensures Owned(s', i) && Sourced(s', i)
    {
      assert Owned(s, i) && Sourced(s, i);
    }
  }

  /** Adding a token that starts its family, or continues one whose tokens are all revoked, from an unused source. */
  lemma AppendingKeeps(s: Sessions, t: RefreshToken)
    requires WellFormed(s)
    requires match t.rotatedFrom
      case None => t.family == |s|
      case Some(k) => k < |s| && s[k].family == t.family && s[k].user == t.user && s[k].revokedAt.Some?
    requires forall i :: 0 <= i < |s| && s[i].family == t.family ==> s[i].revokedAt.Some?
    requires t.rotatedFrom.Some? ==> forall i :: 0 <= i < |s| ==> s[i].rotatedFrom != t.rotatedFrom
    ensures WellFormed(s + [t])
  {
    var s' := s + [t];
    forall i | 0 <= i < |s|
      ensures Owned(s', i) && Sourced(s', i)
    {
      assert Owned(s, i) && Sourced(s, i);
    }
    if t.rotatedFrom.Some? {
      assert Owned(s, t.rotatedFrom.value);
    }
    assert Owned(s', |s|) && Sourced(s', |s|);
  }

  lemma IssuingKeeps(s: Sessions, user: Id, now: Time, ttl: nat)
    requires WellFormed(s)
    ensures WellFormed(Issue(s, user, now, ttl))
  {
    forall i | 0 <= i < |s|
      ensures s[i].family != |s|
    {
      assert Owned(s, i);
    }
    AppendingKeeps(s, RefreshToken(user, |s|, now + ttl, None, None));
  }

  /** A live token is the newest of its family, so revoking it leaves the family without a live one. */
  lemma LiveIsNewest(s: Sessions, k: nat, now: Time)
    requires WellFormed(s) && k < |s| && s[k].revokedAt.None?
    ensures forall i :: 0 <= i < |s| && s[i].family == s[k].family ==> Revoke(s, k, now)[i].revokedAt.Some?
  {
  }

  lemma RotatingKeeps(s: Sessions, k: nat, now: Time, ttl: nat)
    requires WellFormed(s) && k < |s| && s[k].revokedAt.None?
    ensures WellFormed(Rotate(s, k, now, ttl))
  {
    var r := Revoke(s, k, now);
    RevokingKeeps(s, r);
    LiveIsNewest(s, k, now);
    forall j | 0 <= j < |s|
      ensures r[j].rotatedFrom != Some(k)
    {
      assert Sourced(s, j);
    }
    AppendingKeeps(r, RefreshToken(s[k].user, s[k].family, now + ttl, None, Some(k)));
  }

  lemma StepKeepsWellFormed(s: Sessions, step: Step, ttl: nat)
    requires WellFormed(s)
    ensures WellFormed(Apply(s, step, ttl))
  {
    match step
    case Issued(user, now) => IssuingKeeps(s, user, now, ttl);
    case Refreshed(k, accepted, now) =>
      if k < |s| {
        if s[k].revokedAt.Some? {
          RevokingKeeps(s, RevokeFamily(s, s[k].family, now));
        } else if s[k].expiresAt > now && accepted {
          RotatingKeeps(s, k, now, ttl);
        }
      }
    case LoggedOut(k, now) => RevokingKeeps(s, Logout(s, k, now));
    case AllRevoked(user, now) => RevokingKeeps(s, RevokeAllForUser(s, user, now));
    case OthersRevoked(user, f, now) => RevokingKeeps(s, RevokeAllExceptFamily(s, user, f, now));
    case FamilyRevoked(f, now) => RevokingKeeps(s, RevokeFamily(s, f, now));
    case Nothing =>
  }

  /** Over every run: one owner per family, only its newest token live, at most one successor per token. */
  lemma {:induction false} RunKeepsWellFormed(s: Sessions, steps: seq<Step>, ttl: nat)
    requires WellFormed(s)
    ensures WellFormed(Run(s, steps, ttl))
    decreases |steps|
  {
    if steps != [] {
      StepKeepsWellFormed(s, steps[0], ttl);
      RunKeepsWellFormed(Apply(s, steps[0], ttl), steps[1..], ttl);
    }
  }

  /** A family with tokens, none of them live. */
  ghost predicate Dead(s: Sessions, f: Id) {
    f < |s| && forall i :: 0 <= i < |s| && s[i].family == f ==> s[i].revokedAt.Some?
  }

  lemma DeadStaysDead(s: Sessions, step: Step, ttl: nat, f: Id)
    requires Dead(s, f)
    ensures Dead(Apply(s, step, ttl), f)
  {
  }

  lemma {:induction false} DeadForever(s: Sessions, steps: seq<Step>, ttl: nat, f: Id)
    requires Dead(s, f)
    ensures Dead(Run(s, steps, ttl), f)
    decreases |steps|
  {
    if steps != [] {
      DeadStaysDead(s, steps[0], ttl, f);
      DeadForever(Apply(s, steps[0], ttl), steps[1..], ttl, f);
    }
  }

  /** No access token of a dead family is honoured, for any user, at any time. */
  lemma DeadIsInactive(s: Sessions, f: Id, user: Id, now: Time)
    requires Dead(s, f)
    ensures !HasActiveFamily(s, user, f, now)
  {
  }

  /** Presenting a revoked token ends its family for good. */
  lemma ReuseEndsFamily(s: Sessions, k: nat, accepted: bool, now: Time, steps: seq<Step>, ttl: nat)
    requires WellFormed(s) && k < |s| && s[k].revokedAt.Some?
    ensures Refresh(s, k, accepted, now, ttl).1 == Failure(TokenReused)
    ensures Dead(Run(Refresh(s, k, accepted, now, ttl).0, steps, ttl), s[k].family)
  {
    assert Owned(s, k);
    assert Dead(RevokeFamily(s, s[k].family, now), s[k].family);
    DeadForever(RevokeFamily(s, s[k].family, now), steps, ttl, s[k].family);
  }

  /** Logging out with a live token revokes that row alone, and thereby ends the whole session for good. */
  lemma LogoutEndsFamily(s: Sessions, k: nat, now: Time, steps: seq<Step>, ttl: nat)
    requires WellFormed(s) && k < |s| && s[k].revokedAt.None?
    ensures Logout(s, k, now) == s[k := RevokedRow(s[k], now)]
    ensures Dead(Run(Logout(s, k, now), steps, ttl), s[k].family)
  {
    assert Owned(s, k);
    LiveIsNewest(s, k, now);
    DeadForever(Logout(s, k, now), steps, ttl, s[k].family);
  }

  /** Revoking everything of a user ends, for good, every session the user has at that moment. */
  lemma RevokingAllEndsFamilies(s: Sessions, user: Id, k: nat, now: Time, steps: seq<Step>, ttl: nat)
    requires WellFormed(s) && k < |s| && s[k].user == user
    ensures Dead(Run(RevokeAllForUser(s, user, now), steps, ttl), s[k].family)
  {
    var t := RevokeAllForUser(s, user, now);
    forall i | 0 <= i < |t| && t[i].family == s[k].family
      ensures t[i].revokedAt.Some?
    {
      assert Owned(s, i) && Owned(s, k);
    }
    assert Owned(s, k);
    DeadForever(t, steps, ttl, s[k].family);
  }

  /** A fresh login is honoured for its own user and family, exactly until it expires; nobody else's standing
      changes. */
  lemma IssuedIsActive(s: Sessions, user: Id, now: Time, ttl: nat, at: Time, u: Id, f: Id)
    requires WellFormed(s)
    ensures var t := Issue(s, user, now, ttl);
      HasActiveFamily(t, u, f, at) <==> if f == |s| then u == user && at < now + ttl else HasActiveFamily(s, u, f, at)
  {
    var t := Issue(s, user, now, ttl);
    forall i | 0 <= i < |s|
      ensures t[i] == s[i] && s[i].family < |s|
    {
      assert Owned(s, i);
    }
    if HasActiveFamily(s, u, f, at) {
      var i :| 0 <= i < |s| && ActiveRow(s[i], u, f, at);
      assert ActiveRow(t[i], u, f, at);
    }
    if f == |s| && u == user && at < now + ttl {
      assert ActiveRow(t[|s|], u, f, at);
    }
  }

  /** A successful refresh carries the session over to the successor: same user, same family, the new lifetime. */
  lemma RefreshedIsActive(s: Sessions, k: nat, now: Time, ttl: nat, at: Time, u: Id, f: Id)
    requires WellFormed(s) && Refresh(s, k, true, now, ttl).1.Success?
    ensures var t := Refresh(s, k, true, now, ttl).0;
      HasActiveFamily(t, u, f, at) <==>
        if f == s[k].family then u == s[k].user && at < now + ttl else HasActiveFamily(s, u, f, at)
  {
    var t := Rotate(s, k, now, ttl);
    RotatingKeeps(s, k, now, ttl);
    assert forall i :: 0 <= i < |s| && i != k ==> t[i] == s[i];
    if f == s[k].family {
      if u == s[k].user && at < now + ttl {
        assert ActiveRow(t[|s|], u, f, at);
      }
    } else if HasActiveFamily(s, u, f, at) {
      var i :| 0 <= i < |s| && ActiveRow(s[i], u, f, at);
      assert ActiveRow(t[i], u, f, at);
    }
  }
}
