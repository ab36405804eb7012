/** The calls that edit an account or its sign-ins: when each goes through, and what exactly it changes. */
module AccountEdits {
  import opened Common
  import opened SignupOtp
  import opened Accounts
  import opened AccountInvariants
  import opened AccountSteps
  import opened AccountLaws
  import opened ServiceCalls
  import opened ServiceRuns
  import opened Standing
  import R = RefreshSessions
  import P = PasswordResets
  import SessionEnds

  // ----- passwords

  /** Nothing changes but this user's password. */
  predicate OnlyPasswordSet(s: Accounts, t: Accounts, u: Id, password: string) {
    && u in s.users && u in t.users && t == s.(users := s.users[u := t.users[u]])
    && t.users[u].password == Some(PasswordHash(password))
    && t.users[u].(password := s.users[u].password) == s.users[u]
  }

  /** A first password, or another in exchange for the present one, for any user not deleted; no other call goes
      through, and none that does not changes anything. */
  lemma PasswordEditsExactly(s: Accounts, u: Id, current: string, password: string)
    ensures var (t, error) := SetPassword(s, u, password);
      && (u !in s.users || s.users[u].deletedAt.Some? ==> (t, error) == (s, Some(NotFound)))
      && (u in s.users && s.users[u].deletedAt.None? ==>
            if s.users[u].password.None? then error == None && OnlyPasswordSet(s, t, u, password)
            else (t, error) == (s, Some(Conflict)))
    ensures var (t, error) := ChangePassword(s, u, current, password);
      && (u !in s.users || s.users[u].deletedAt.Some? ==> (t, error) == (s, Some(NotFound)))
      && (u in s.users && s.users[u].deletedAt.None? ==>
            if s.users[u].password.None? then (t, error) == (s, Some(Conflict))
            else if s.users[u].password == Some(PasswordHash(current)) then
              error == None && OnlyPasswordSet(s, t, u, password)
            else (t, error) == (s, Some(Unauthorized)))
  {
    PasswordIsAimed(s, u, password);
    hide WithPassword, OnlyPasswordSet;
  }

  lemma PasswordIsAimed(s: Accounts, u: Id, password: string)
    ensures u in s.users ==> OnlyPasswordSet(s, WithPassword(s, u, password), u, password)
  {
  }

  // ----- provider links

  /** Some account of this provider is linked to the user. */
  ghost predicate HasProvider(s: Accounts, u: Id, provider: string) {
    exists k :: k in s.social && k.provider == provider && s.social[k] == u
  }

  /** A provider account is linked to a user not deleted who has none of that provider yet, if nobody has it; Google
      accounts are never linked this way. */
  lemma LinksExactlyWhen(s: Accounts, u: Id, provider: string, profile: Option<string>)
    ensures var (t, error) := LinkProvider(s, u, provider, profile);
      var goes := provider != "google" && u in s.users && s.users[u].deletedAt.None? && !HasProvider(s, u, provider)
        && profile.Some? && SocialKey(provider, profile.value) !in s.social;
      && (error.None? <==> goes)
      && (if goes then t == s.(social := s.social[SocialKey(provider, profile.value) := u]) else t == s)
  {
    assert Linked(s, u, provider) == HasProvider(s, u, provider);
  }

  /** A user not deleted loses the accounts of one provider and no other, if a password or another link is left. */
  lemma UnlinksExactlyWhen(s: Accounts, u: Id, provider: string)
    requires LinksDistinct(s.social)
    ensures var (t, error) := UnlinkProvider(s, u, provider);
      var goes := u in s.users && s.users[u].deletedAt.None? && HasProvider(s, u, provider)
        && (s.users[u].password.Some? || exists k :: k in s.social && s.social[k] == u && k.provider != provider);
      && (error.None? <==> goes) && t == s.(social := t.social) && (!goes ==> t == s)
      && (goes ==> forall k :: k in t.social <==> k in s.social && !(s.social[k] == u && k.provider == provider))
      && (forall k :: k in t.social ==> k in s.social && t.social[k] == s.social[k])
  {
    assert Linked(s, u, provider) == HasProvider(s, u, provider);
    if HasProvider(s, u, provider) {
      OneLinkExactly(s, u, provider);
    }
    hide Linked, LinksDistinct;
  }

  lemma OneLinkExactly(s: Accounts, u: Id, provider: string)
    requires LinksDistinct(s.social) && HasProvider(s, u, provider)
    ensures |LinksOf(s, u)| > 1 <==> exists k :: k in s.social && s.social[k] == u && k.provider != provider
  {
    var own :| own in s.social && own.provider == provider && s.social[own] == u;
    var links := LinksOf(s, u);
    if k :| k in s.social && s.social[k] == u && k.provider != provider {
      TwoMembers(links, own, k);
    } else {
      assert links == {own} by {
        forall k | k in links
          ensures k == own
        {
        }
      }
    }
  }

  lemma TwoMembers(links: set<SocialKey>, a: SocialKey, b: SocialKey)
    requires a in links && b in links && a != b
    ensures |links| > 1
  {
    assert |{a, b}| == 2 && {a, b} <= links;
    SmallerSet({a, b}, links);
  }

  lemma {:induction false} SmallerSet(s: set<SocialKey>, t: set<SocialKey>)
    requires s <= t
    ensures |s| <= |t|
    decreases s
  {
    if s != {} {
      var x :| x in s;
      SmallerSet(s - {x}, t - {x});
    }
  }

  // ----- the phone of a Google signup

  /** A phone is given to an open Google signup with a verified email, if no user and no other session has it. */
  ghost predicate MayTakePhone(s: Accounts, id: Id, phone: string) {
    && id in s.pending && s.clock < s.pending[id].expiresAt && s.pending[id].kind == Candidate
    && s.pending[id].oauth.Some? && s.pending[id].oauth.value.provider == "google"
    && s.pending[id].emailState.verifiedAt.Some?
    && (forall u :: u in s.users && s.users[u].deletedAt.None? ==> s.users[u].phone != Some(phone))
    && (forall j :: j in s.pending && j != id ==> s.pending[j].phone != Some(phone))
  }

  lemma TakesPhoneExactlyWhen(s: Accounts, id: Id, phone: string)
    requires RowsDistinct(s.pending)
    ensures var (t, error) := SetGooglePhone(s, id, phone);
      && (error.None? <==> MayTakePhone(s, id, phone))
      && (error.None? ==>
            t == s.(pending := s.pending[id := s.pending[id].(phone := Some(phone),
                      phoneState := s.pending[id].phoneState.(verifiedAt := None))], tracks := t.tracks))
      && (error.Some? && id in s.pending && s.clock < s.pending[id].expiresAt ==> t == s)
  {
    LookupsExact(s, "", Some(phone));
    assert UserByPhone(s, phone).None? <==>
      forall u :: u in s.users && s.users[u].deletedAt.None? ==> s.users[u].phone != Some(phone) by {
      if u :| u in s.users && s.users[u].deletedAt.None? && s.users[u].phone == Some(phone) {
        assert Known(s, u);
      }
    }
    assert PendingByPhone(s, Some(phone)).Some? ==>
      PendingByPhone(s, Some(phone)).value in s.pending
      && s.pending[PendingByPhone(s, Some(phone)).value].phone == Some(phone);
    hide UserByPhone, PendingByPhone, RowsDistinct, ClearSession;
  }

  // ----- resets and revocations

  /** A reset token is made for the user in good standing who has the email, and for nobody else; every other token but
      that user's is as it was. */
  lemma ForgottenExactly(s: Service, email: string, u: Id, cfg: Settings)
    requires UsersDistinct(s.accounts.users)
    ensures var t := ForgotCall(s, email, cfg);
      && t == s.(resets := t.resets)
      && (GoodStanding(s.accounts, u) && s.accounts.users[u].email == email ==>
            && |t.resets| == |s.resets| + 1
            && t.resets[|s.resets|] == P.ResetToken(u, s.accounts.clock + cfg.resetTtl, None)
            && forall k :: 0 <= k < |s.resets| && s.resets[k].user != u ==> t.resets[k] == s.resets[k])
      && ((forall v :: GoodStanding(s.accounts, v) ==> s.accounts.users[v].email != email) ==> t == s)
  {
    var a := s.accounts;
    if GoodStanding(a, u) && a.users[u].email == email {
      assert Known(a, u);
      UserLookupExact(a, u);
    }
    if UserByEmail(a, email).Some? {
      assert a.users[UserByEmail(a, email).value].email == email;
      assert Accepted(s, UserByEmail(a, email).value) <==> GoodStanding(a, UserByEmail(a, email).value);
    }
    hide UserByEmail, UsersDistinct;
  }

  /** A reset goes through exactly with an unused token in its lifetime whose user is enabled and not deleted, and a
      refusal changes nothing. */
  lemma ResetsExactlyWhen(s: Service, k: nat, password: string)
    ensures var (t, error) := ResetCall(s, k, password);
      && (error.None? <==>
            && k < |s.resets| && s.resets[k].usedAt.None? && s.accounts.clock < s.resets[k].expiresAt
            && var u := s.resets[k].user;
               u in s.accounts.users && s.accounts.users[u].active && s.accounts.users[u].deletedAt.None?)
      && (error.Some? ==> t == s && error == Some(Unauthorized))
      && (error.None? ==> OnlyPasswordSet(s.accounts, t.accounts, s.resets[k].user, password))
  {
    if k < |s.resets| {
      PasswordIsAimed(s.accounts, s.resets[k].user, password);
    }
    hide R.RevokeAllForUser, P.Spend, OnlyPasswordSet, WithPassword;
  }

  /** Presenting a revoked token ends its own session and no other. */
  lemma ReuseLeavesOthers(s: Service, k: nat, cfg: Settings, b: Bearer)
    requires Sound(s, cfg) && k < |s.sessions| && s.sessions[k].revokedAt.Some?
    requires b.Token? && b.session.Named? && b.session.id != s.sessions[k].family
    ensures CurrentUser(RefreshCall(s, k, cfg).0, b) == CurrentUser(s, b)
  {
    if b.subject.Named? {
      SessionEnds.SameStanding(s.sessions, RefreshCall(s, k, cfg).0.sessions, b.subject.id, b.session.id,
        s.accounts.clock);
    }
  }

  /** "Sign out everywhere else" ends every other session of the user for good, keeps the one it is asked from, and
      touches nobody else's. */
  lemma OthersAreSignedOut(s: Service, u: Id, f: Id, j: nat, calls: seq<Call>, cfg: Settings, b: Bearer)
    requires Sound(s, cfg) && j < |s.sessions| && s.sessions[j].user == u && s.sessions[j].family != f
    ensures var t := Serve(s, RevokingOthers(u, f), cfg);
      && SessionEnds.Over(Run(t, calls, cfg), s.sessions[j].family, cfg)
      && (b.Token? && b.session.Named? && b.subject.Named? && (b.session.id == f || b.subject.id != u) ==>
            CurrentUser(t, b) == CurrentUser(s, b))
  {
    var t := Serve(s, RevokingOthers(u, f), cfg);
    var g := s.sessions[j].family;
    assert R.Owned(s.sessions, j);
    forall i | 0 <= i < |t.sessions| && t.sessions[i].family == g
      ensures t.sessions[i].revokedAt.Some?
    {
      assert R.Owned(s.sessions, i) && R.Owned(s.sessions, j);
    }
    SessionEnds.DeadStaysOver(t, g, calls, cfg);
    if b.Token? && b.session.Named? && b.subject.Named? && (b.session.id == f || b.subject.id != u) {
      SessionEnds.SameStanding(s.sessions, t.sessions, b.subject.id, b.session.id, s.accounts.clock);
    }
  }

  /** Revoking everything of a user ends all of the user's sessions for good and touches nobody else's. */
  lemma AllAreSignedOut(s: Service, u: Id, j: nat, calls: seq<Call>, cfg: Settings, b: Bearer)
    requires Sound(s, cfg) && j < |s.sessions| && s.sessions[j].user == u
    ensures var t := Serve(s, RevokingAll(u), cfg);
      && SessionEnds.Over(Run(t, calls, cfg), s.sessions[j].family, cfg)
      && (b.Token? && b.session.Named? && b.subject.Named? && b.subject.id != u ==>
            CurrentUser(t, b) == CurrentUser(s, b))
  {
    var t := Serve(s, RevokingAll(u), cfg);
    R.RevokingAllEndsFamilies(s.sessions, u, j, s.accounts.clock, [], cfg.refreshTtl);
    SessionEnds.DeadStaysOver(t, s.sessions[j].family, calls, cfg);
    if b.Token? && b.session.Named? && b.subject.Named? && b.subject.id != u {
      SessionEnds.SameStanding(s.sessions, t.sessions, b.subject.id, b.session.id, s.accounts.clock);
    }
  }
}
