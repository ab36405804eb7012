/** What the backfill leaves each person with, said of the invitations, requests and employments it started from. */
module UpgradeOutcome {
  import opened Common
  import opened PersonRegistry
  import opened BackfillRuns
  import opened PersonBackfill

  // ----- rows and what they were made from

  /** Where a resolved request stands among the rows of requests. */
  function RowOf(persons: seq<Option<Id>>, j: nat): nat
    requires j <= |persons|
  {
    |Compact(persons[..j])|
  }

  lemma {:induction false} RowIsOfRequest(verifications: seq<Verification>, persons: seq<Option<Id>>, j: nat,
      invitations: seq<Invitation>, env: Environment)
    requires Aligned(verifications, persons) && j < |persons| && persons[j].Some?
    ensures RowOf(persons, j) < |VerificationRows(verifications, invitations, env)| == |Compact(persons)|
    ensures Compact(persons)[RowOf(persons, j)] == persons[j].value
    ensures VerificationRows(verifications, invitations, env)[RowOf(persons, j)].request ==
      VerificationRequest(verifications[j], verifications[j].organization.value, env)
    decreases |persons|
  {
    var n := |persons| - 1;
    CompactLength(verifications, persons, invitations, env);
    CompactLength(verifications[..n], persons[..n], invitations, env);
    if j < n {
      RowIsOfRequest(verifications[..n], persons[..n], j, invitations, env);
      assert persons[..n][..j] == persons[..j];
    }
  }

  /** Every row of a request is that of a resolved request. */
  lemma {:induction false} RequestOfRow(persons: seq<Option<Id>>, k: nat) returns (j: nat)
    requires k < |Compact(persons)|
    ensures j < |persons| && persons[j].Some? && RowOf(persons, j) == k
    decreases |persons|
  {
    var n := |persons| - 1;
    if k < |Compact(persons[..n])| {
      j := RequestOfRow(persons[..n], k);
      assert persons[..n][..j] == persons[..j];
    } else {
      j := n;
    }
  }

  lemma {:induction false} RowsInOrder(persons: seq<Option<Id>>, i: nat, j: nat)
    requires i < j <= |persons| && persons[i].Some?
    ensures RowOf(persons, i) < RowOf(persons, j)
    decreases j
  {
    assert persons[..j][..j - 1] == persons[..j - 1];
    if i < j - 1 {
      RowsInOrder(persons, i, j - 1);
    } else {
      assert persons[..j][|persons[..j]| - 1] == persons[i];
    }
  }

  /** The invitation, or the request, was found to be about `p`. */
  predicate InvitationAbout(links: Links, i: int, p: Id) {
    0 <= i < |links.invitations| && links.invitations[i] == p
  }

  predicate RequestAbout(links: Links, j: int, p: Id) {
    0 <= j < |links.verifications| && links.verifications[j] == Some(p)
  }

  /** The row at `k` is about `p`, and was made from this invitation or this request. */
  lemma RowsAbout(invitations: seq<Invitation>, verifications: seq<Verification>, env: Environment, links: Links, p: Id)
    requires Fits(links, invitations, verifications)
    ensures |People(links)| == |AllRows(invitations, verifications, env)|
    ensures forall i :: InvitationAbout(links, i, p) ==>
      && i < |AllRows(invitations, verifications, env)| && People(links)[i] == p
      && AllRows(invitations, verifications, env)[i].request == InvitationRequest(invitations[i], env)
    ensures forall j :: RequestAbout(links, j, p) ==>
      var k := |invitations| + RowOf(links.verifications, j);
      && k < |AllRows(invitations, verifications, env)| && People(links)[k] == p && verifications[j].organization.Some?
      && AllRows(invitations, verifications, env)[k].request ==
           VerificationRequest(verifications[j], verifications[j].organization.value, env)
  {
    CompactLength(verifications, links.verifications, invitations, env);
    forall j | RequestAbout(links, j, p)
      ensures var k := |invitations| + RowOf(links.verifications, j);
        && k < |AllRows(invitations, verifications, env)| && People(links)[k] == p
        && AllRows(invitations, verifications, env)[k].request ==
             VerificationRequest(verifications[j], verifications[j].organization.value, env)
    {
      RowIsOfRequest(verifications, links.verifications, j, invitations, env);
    }
  }

  /** Where the row about `p` at `k` comes from. */
  lemma SourceOfRow(invitations: seq<Invitation>, verifications: seq<Verification>, env: Environment, links: Links,
      p: Id, k: nat) returns (j: nat)
    requires Fits(links, invitations, verifications) && k < |People(links)| && People(links)[k] == p
    ensures if k < |invitations| then InvitationAbout(links, k, p)
      else RequestAbout(links, j, p) && k == |invitations| + RowOf(links.verifications, j)
  {
    if k >= |invitations| {
      j := RequestOfRow(links.verifications, k - |invitations|);
      CompactHolds(links.verifications, j);
    } else {
      j := 0;
    }
  }

  lemma {:induction false} CompactHolds(persons: seq<Option<Id>>, j: nat)
    requires j < |persons| && persons[j].Some?
    ensures RowOf(persons, j) < |Compact(persons)| && Compact(persons)[RowOf(persons, j)] == persons[j].value
    decreases |persons|
  {
    var n := |persons| - 1;
    if j < n {
      CompactHolds(persons[..n], j);
      assert persons[..n][..j] == persons[..j];
    }
  }

  // ----- relationships

  predicate Ended(e: Employment, today: Time) {
    e.endDate.Some? && e.endDate.value < today
  }

  /** A request about `p` concerns a known employment, ended or not, on contract or not. */
  ghost predicate Employed(links: Links, verifications: seq<Verification>, env: Environment, p: Id, ended: bool,
      contractual: bool)
    requires |links.verifications| == |verifications|
  {
    exists j :: RequestAbout(links, j, p) && EmployedBy(verifications[j], env, ended, contractual)
  }

  predicate EmployedBy(v: Verification, env: Environment, ended: bool, contractual: bool) {
    && v.employment.Some? && v.employment.value in env.employments
    && var e := env.employments[v.employment.value]; Ended(e, env.today) == ended && e.contractual == contractual
  }

  ghost predicate Invited(links: Links, invitations: seq<Invitation>, p: Id)
    requires |links.invitations| == |invitations|
  {
    exists i :: InvitationAbout(links, i, p) && invitations[i].acceptedBy.None?
  }

  /** An employment that has ended outranks a running one, employment outranks contract work, and any of them an open
      invitation. */
  ghost predicate RelationshipEarned(links: Links, invitations: seq<Invitation>, verifications: seq<Verification>,
      env: Environment, p: Id, r: Relationship)
    requires |links.invitations| == |invitations| && |links.verifications| == |verifications|
  {
    r == if Employed(links, verifications, env, p, true, true) || Employed(links, verifications, env, p, true, false)
      then FormerEmployee
      else if Employed(links, verifications, env, p, false, false) then Employee
      else if Employed(links, verifications, env, p, false, true) then Contractor
      else if Invited(links, invitations, p) then FutureEmployee
      else Candidate
  }

  /** Something about `p` brings this relationship. */
  ghost predicate Brings(links: Links, invitations: seq<Invitation>, verifications: seq<Verification>,
      env: Environment, p: Id, r: Relationship)
    requires |links.invitations| == |invitations| && |links.verifications| == |verifications|
  {
    match r
    case FormerEmployee =>
      Employed(links, verifications, env, p, true, true) || Employed(links, verifications, env, p, true, false)
    case Employee => Employed(links, verifications, env, p, false, false)
    case Contractor => Employed(links, verifications, env, p, false, true)
    case FutureEmployee => Invited(links, invitations, p)
    case Candidate => true
  }

  lemma ContributedIsBrought(invitations: seq<Invitation>, verifications: seq<Verification>, env: Environment,
      links: Links, p: Id, r: Relationship)
    requires Fits(links, invitations, verifications)
    requires |People(links)| == |AllRows(invitations, verifications, env)|
    requires r in Contributed(AllRows(invitations, verifications, env), People(links), p)
    ensures Brings(links, invitations, verifications, env, p, r)
  {
    var rows := AllRows(invitations, verifications, env);
    RowsAbout(invitations, verifications, env, links, p);
    var k :| 0 <= k < |rows| && People(links)[k] == p && rows[k].request.relationship == r;
    var j := SourceOfRow(invitations, verifications, env, links, p, k);
    hide AllRows, People, Contributed;
    if k < |invitations| {
      assert invitations[k].acceptedBy.None? <==> r == FutureEmployee;
    } else if r != Candidate {
      var e := env.employments[verifications[j].employment.value];
      assert EmployedBy(verifications[j], env, Ended(e, env.today), e.contractual);
    }
  }

  lemma BroughtIsContributed(invitations: seq<Invitation>, verifications: seq<Verification>, env: Environment,
      links: Links, p: Id, r: Relationship)
    requires Fits(links, invitations, verifications) && r != Candidate
    requires |People(links)| == |AllRows(invitations, verifications, env)|
    requires Brings(links, invitations, verifications, env, p, r)
    ensures r in Contributed(AllRows(invitations, verifications, env), People(links), p)
  {
    var rows := AllRows(invitations, verifications, env);
    RowsAbout(invitations, verifications, env, links, p);
    hide AllRows, People;
    if r == FutureEmployee {
      var i :| InvitationAbout(links, i, p) && invitations[i].acceptedBy.None?;
      assert People(links)[i] == p && rows[i].request.relationship == r;
    } else {
      var j :| RequestAbout(links, j, p)
        && VerificationRequest(verifications[j], verifications[j].organization.value, env).relationship == r;
      var k := |invitations| + RowOf(links.verifications, j);
      assert People(links)[k] == p && rows[k].request.relationship == r;
    }
  }

  lemma ContributedBy(invitations: seq<Invitation>, verifications: seq<Verification>, env: Environment, links: Links,
      p: Id, r: Relationship)
    requires Fits(links, invitations, verifications) && r != Candidate
    requires |People(links)| == |AllRows(invitations, verifications, env)|
    ensures r in Contributed(AllRows(invitations, verifications, env), People(links), p) <==>
      Brings(links, invitations, verifications, env, p, r)
  {
    hide AllRows, People, Contributed, Brings;
    if r in Contributed(AllRows(invitations, verifications, env), People(links), p) {
      ContributedIsBrought(invitations, verifications, env, links, p, r);
    }
    if Brings(links, invitations, verifications, env, p, r) {
      BroughtIsContributed(invitations, verifications, env, links, p, r);
    }
  }

  lemma RelationshipsEarned(invitations: seq<Invitation>, verifications: seq<Verification>, env: Environment,
      links: Links, p: Id)
    requires Fits(links, invitations, verifications)
    requires |People(links)| == |AllRows(invitations, verifications, env)|
    ensures RelationshipEarned(links, invitations, verifications, env, p,
      Top(Contributed(AllRows(invitations, verifications, env), People(links), p)))
  {
    ContributedBy(invitations, verifications, env, links, p, FormerEmployee);
    ContributedBy(invitations, verifications, env, links, p, Employee);
    ContributedBy(invitations, verifications, env, links, p, Contractor);
    ContributedBy(invitations, verifications, env, links, p, FutureEmployee);
    hide Contributed, Employed, Invited, AllRows, People;
  }

  // ----- dates

  /** When the invitations and requests about `p` were made. */
  ghost predicate Made(links: Links, invitations: seq<Invitation>, verifications: seq<Verification>, p: Id, t: Time)
    requires |links.invitations| == |invitations| && |links.verifications| == |verifications|
  {
    || (exists i :: InvitationAbout(links, i, p) && invitations[i].createdAt == t)
    || (exists j :: RequestAbout(links, j, p) && verifications[j].createdAt == t)
  }

  /** A moment at which something happened to what is linked to `p`. */
  ghost predicate Touched(links: Links, invitations: seq<Invitation>, verifications: seq<Verification>,
      env: Environment, p: Id, t: Time)
    requires |links.invitations| == |invitations| && |links.verifications| == |verifications|
  {
    || (exists i :: InvitationAbout(links, i, p) && t in {invitations[i].lastTouched, invitations[i].updatedAt})
    || (exists j :: RequestAbout(links, j, p) && t in {verifications[j].lastTouched, verifications[j].updatedAt})
    || (exists e :: e in links.employments && links.employments[e] == p && e in env.employments
          && env.employments[e].updatedAt == t)
  }

  lemma MadeByRows(invitations: seq<Invitation>, verifications: seq<Verification>, env: Environment, links: Links,
      p: Id, t: Time)
    requires Fits(links, invitations, verifications)
    requires |People(links)| == |AllRows(invitations, verifications, env)|
    ensures Made(links, invitations, verifications, p, t) <==>
      exists k :: 0 <= k < |People(links)| && People(links)[k] == p
        && AllRows(invitations, verifications, env)[k].request.addedAt == Some(t)
  {
    var rows := AllRows(invitations, verifications, env);
    RowsAbout(invitations, verifications, env, links, p);
    if k :| 0 <= k < |rows| && People(links)[k] == p && rows[k].request.addedAt == Some(t) {
      var j := SourceOfRow(invitations, verifications, env, links, p, k);
    }
    if i :| InvitationAbout(links, i, p) && invitations[i].createdAt == t {
      assert People(links)[i] == p && rows[i].request.addedAt == Some(t);
    }
    if j :| RequestAbout(links, j, p) && verifications[j].createdAt == t {
      var k := |invitations| + RowOf(links.verifications, j);
      assert People(links)[k] == p && rows[k].request.addedAt == Some(t);
    }
  }

  lemma ReportedByRows(invitations: seq<Invitation>, verifications: seq<Verification>, env: Environment, links: Links,
      p: Id, t: Time)
    requires Fits(links, invitations, verifications)
    requires |People(links)| == |AllRows(invitations, verifications, env)|
    ensures t in Reported(AllRows(invitations, verifications, env), People(links), p) <==>
      || (exists i :: InvitationAbout(links, i, p) && invitations[i].lastTouched == t)
      || (exists j :: RequestAbout(links, j, p) && verifications[j].lastTouched == t)
  {
    var rows := AllRows(invitations, verifications, env);
    RowsAbout(invitations, verifications, env, links, p);
    if t in Reported(rows, People(links), p) {
      var k :| 0 <= k < |rows| && People(links)[k] == p && rows[k].request.lastActivity == Some(t);
      var j := SourceOfRow(invitations, verifications, env, links, p, k);
    }
    if i :| InvitationAbout(links, i, p) && invitations[i].lastTouched == t {
      assert People(links)[i] == p && rows[i].request.lastActivity == Some(t);
    }
    if j :| RequestAbout(links, j, p) && verifications[j].lastTouched == t {
      var k := |invitations| + RowOf(links.verifications, j);
      assert People(links)[k] == p && rows[k].request.lastActivity == Some(t);
    }
  }

  lemma TouchedByRows(invitations: seq<Invitation>, verifications: seq<Verification>, env: Environment, links: Links,
      p: Id, t: Time)
    requires Fits(links, invitations, verifications)
    requires |People(links)| == |AllRows(invitations, verifications, env)|
    ensures Touched(links, invitations, verifications, env, p, t) <==>
      t in Reported(AllRows(invitations, verifications, env), People(links), p)
        + TouchesOf(links, invitations, verifications, env, p)
  {
    ReportedByRows(invitations, verifications, env, links, p, t);
    hide AllRows, People, Reported;
    if t in TouchesOf(links, invitations, verifications, env, p) {
      TouchesAre(invitations, verifications, env, links, p, t);
    }
    if i :| InvitationAbout(links, i, p) && invitations[i].updatedAt == t {
      assert t in TouchesOf(links, invitations, verifications, env, p);
    }
    if j :| RequestAbout(links, j, p) && verifications[j].updatedAt == t {
      assert t in TouchesOf(links, invitations, verifications, env, p);
    }
  }

  lemma TouchesAre(invitations: seq<Invitation>, verifications: seq<Verification>, env: Environment, links: Links,
      p: Id, t: Time)
    requires Fits(links, invitations, verifications) && t in TouchesOf(links, invitations, verifications, env, p)
    ensures Touched(links, invitations, verifications, env, p, t)
  {
    if i :| 0 <= i < |invitations| && links.invitations[i] == p && invitations[i].updatedAt == t {
      assert InvitationAbout(links, i, p);
    } else if j :| 0 <= j < |verifications| && links.verifications[j] == Some(p) && verifications[j].updatedAt == t {
      assert RequestAbout(links, j, p);
    }
  }

  // ----- identity

  /** The first invitation about `p` that brings a value decides; where none does, the first request that brings one. */
  ghost predicate FirstBrought<T(!new)>(links: Links, invitations: seq<Invitation>, verifications: seq<Verification>,
      p: Id, invited: Invitation -> Option<T>, requested: Verification -> Option<T>, value: Option<T>)
    requires |links.invitations| == |invitations| && |links.verifications| == |verifications|
  {
    if exists i :: InvitationAbout(links, i, p) && invited(invitations[i]).Some? then
      exists i :: InvitationAbout(links, i, p) && invited(invitations[i]) == value && value.Some?
        && forall h :: h < i && InvitationAbout(links, h, p) ==> invited(invitations[h]).None?
    else if exists j :: RequestAbout(links, j, p) && requested(verifications[j]).Some? then
      exists j :: RequestAbout(links, j, p) && requested(verifications[j]) == value && value.Some?
        && forall h :: h < j && RequestAbout(links, h, p) ==> requested(verifications[h]).None?
    else value.None?
  }

  lemma FirstRowIsFirstBrought<T(!new)>(invitations: seq<Invitation>, verifications: seq<Verification>,
      env: Environment, links: Links, p: Id, column: Request -> Option<T>, invited: Invitation -> Option<T>,
      requested: Verification -> Option<T>, value: Option<T>)
    requires Fits(links, invitations, verifications)
    requires |People(links)| == |AllRows(invitations, verifications, env)|
    requires forall i :: column(InvitationRequest(i, env)) == invited(i)
    requires forall v: Verification, o :: column(VerificationRequest(v, o, env)) == requested(v)
    requires IsFirst(AllRows(invitations, verifications, env), People(links), p, column, value)
    ensures FirstBrought(links, invitations, verifications, p, invited, requested, value)
  {
    var rows, ids, n := AllRows(invitations, verifications, env), People(links), |invitations|;
    RowsAbout(invitations, verifications, env, links, p);
    if value.None? {
      forall i | InvitationAbout(links, i, p)
        ensures invited(invitations[i]).None?
      {
        assert ids[i] == p;
      }
      forall j | RequestAbout(links, j, p)
        ensures requested(verifications[j]).None?
      {
        assert ids[n + RowOf(links.verifications, j)] == p;
      }
    } else {
      var k :| 0 <= k < |rows| && ids[k] == p && column(rows[k].request) == value
        && forall h :: 0 <= h < k && ids[h] == p ==> column(rows[h].request).None?;
      var j := SourceOfRow(invitations, verifications, env, links, p, k);
      if k < n {
        assert invited(invitations[k]) == value;
        forall h | h < k && InvitationAbout(links, h, p)
          ensures invited(invitations[h]).None?
        {
          assert ids[h] == p;
        }
      } else {
        assert requested(verifications[j]) == value;
        forall i | InvitationAbout(links, i, p)
          ensures invited(invitations[i]).None?
        {
          assert ids[i] == p;
        }
        forall h | h < j && RequestAbout(links, h, p)
          ensures requested(verifications[h]).None?
        {
          RowsInOrder(links.verifications, h, j);
          assert ids[n + RowOf(links.verifications, h)] == p;
        }
      }
    }
  }

  /** The last request about `p` with a name gives it; where none has one, the last invitation. */
  ghost predicate LastNamed(links: Links, invitations: seq<Invitation>, verifications: seq<Verification>, p: Id,
      name: string)
    requires |links.invitations| == |invitations| && |links.verifications| == |verifications|
  {
    if exists j :: RequestAbout(links, j, p) && verifications[j].subjectName != "" then
      && name != ""
      && exists j :: RequestAbout(links, j, p) && verifications[j].subjectName == name
           && forall h :: j < h && RequestAbout(links, h, p) ==> verifications[h].subjectName == ""
    else if exists i :: InvitationAbout(links, i, p) && invitations[i].subjectName != "" then
      && name != ""
      && exists i :: InvitationAbout(links, i, p) && invitations[i].subjectName == name
           && forall h :: i < h && InvitationAbout(links, h, p) ==> invitations[h].subjectName == ""
    else name == ""
  }

  lemma LastRowNames(invitations: seq<Invitation>, verifications: seq<Verification>, env: Environment, links: Links,
      p: Id, name: string)
    requires Fits(links, invitations, verifications)
    requires |People(links)| == |AllRows(invitations, verifications, env)|
    requires IsLastName(AllRows(invitations, verifications, env), People(links), p, name)
    ensures LastNamed(links, invitations, verifications, p, name)
  {
    var rows, ids, n := AllRows(invitations, verifications, env), People(links), |invitations|;
    RowsAbout(invitations, verifications, env, links, p);
    if name == "" {
      forall i | InvitationAbout(links, i, p)
        ensures invitations[i].subjectName == ""
      {
        assert ids[i] == p;
      }
      forall j | RequestAbout(links, j, p)
        ensures verifications[j].subjectName == ""
      {
        assert ids[n + RowOf(links.verifications, j)] == p;
      }
    } else {
      var k :| 0 <= k < |rows| && ids[k] == p && rows[k].request.fullName == name
        && forall h :: k < h < |rows| && ids[h] == p ==> rows[h].request.fullName == "";
      var j := SourceOfRow(invitations, verifications, env, links, p, k);
      forall h | RequestAbout(links, h, p) && (k < n || j < h)
        ensures verifications[h].subjectName == ""
      {
        if k >= n {
          RowsInOrder(links.verifications, j, h);
        }
        assert ids[n + RowOf(links.verifications, h)] == p;
      }
      if k < n {
        assert invitations[k].subjectName == name;
        forall h | k < h && InvitationAbout(links, h, p)
          ensures invitations[h].subjectName == ""
        {
          assert ids[h] == p;
        }
      } else {
        assert verifications[j].subjectName == name;
      }
    }
  }

  /** An invitation or request about the key's person brought this email or phone, spelled like this. */
  ghost predicate Spelled(links: Links, invitations: seq<Invitation>, verifications: seq<Verification>,
      env: Environment, key: Key, row: Identifier)
    requires |links.invitations| == |invitations| && |links.verifications| == |verifications|
  {
    var p := row.person;
    match key.kind
    case EmailKind =>
      || (exists i :: InvitationAbout(links, i, p)
            && invitations[i].email == Some(key.value) && invitations[i].rawEmail == row.raw)
      || (exists j :: RequestAbout(links, j, p)
            && verifications[j].email == Some(key.value) && verifications[j].rawEmail == row.raw)
    case PhoneKind =>
      || (exists i :: InvitationAbout(links, i, p)
            && invitations[i].phone == Some(key.value) && invitations[i].rawPhone == row.raw)
      || (exists j :: RequestAbout(links, j, p)
            && PhoneOfSubject(env)(verifications[j]) == Some(key.value) && row.raw == Some(key.value))
  }

  /** Every row of the identifier table comes from an invitation or a request about its person, with its spelling. */
  lemma IdentifiersAreSpelled(invitations: seq<Invitation>, verifications: seq<Verification>, env: Environment,
      links: Links, s: Registry, key: Key)
    requires Fits(links, invitations, verifications) && LinksHarmless(AllRows(invitations, verifications, env))
    requires Run(AllRows(invitations, verifications, env)) == Success((s, People(links))) && key in s.identifiers
    ensures Spelled(links, invitations, verifications, env, key, s.identifiers[key])
  {
    var rows, ids := AllRows(invitations, verifications, env), People(links);
    RunStores(rows, s, ids);
    hide Run, LinksHarmless, AllRows, People, Spelled;
    assert StoredFromLast(rows, s, ids, key);
    var k :| BringsKey(rows, s, ids, k, key)
      && s.identifiers[key] ==
           Identifier(ids[k], if key.kind == EmailKind then rows[k].request.rawEmail
             else rows[k].request.rawPhone, true);
    RowIsSpelled(invitations, verifications, env, links, s, key, k);
  }

  lemma RowIsSpelled(invitations: seq<Invitation>, verifications: seq<Verification>, env: Environment, links: Links,
      s: Registry, key: Key, k: nat)
    requires Fits(links, invitations, verifications)
    requires |People(links)| == |AllRows(invitations, verifications, env)|
    requires BringsKey(AllRows(invitations, verifications, env), s, People(links), k, key)
    ensures var (r, p) := (AllRows(invitations, verifications, env)[k].request, People(links)[k]);
      Spelled(links, invitations, verifications, env, key,
        Identifier(p, if key.kind == EmailKind then r.rawEmail else r.rawPhone, true))
  {
    var p := People(links)[k];
    RowsAbout(invitations, verifications, env, links, p);
    var j := SourceOfRow(invitations, verifications, env, links, p, k);
    hide AllRows, People;
  }

  /** The earliest and the latest of the moments at which something linked to `p` was made or touched. */
  ghost predicate DatesSpan(links: Links, invitations: seq<Invitation>, verifications: seq<Verification>,
      env: Environment, p: Id, added: Time, last: Time)
    requires |links.invitations| == |invitations| && |links.verifications| == |verifications|
  {
    && Made(links, invitations, verifications, p, added) && env.now <= last
    && (forall t :: Made(links, invitations, verifications, p, t) ==> added <= t)
    && (Touched(links, invitations, verifications, env, p, last) || last in {added, env.now})
    && (forall t :: Touched(links, invitations, verifications, env, p, t) ==> t <= last) && added <= last
  }

  const ACCEPTED := (i: Invitation) => i.acceptedBy
  const SUBJECT := (v: Verification) => v.subjectUser
  const INVITED_EMAIL := (i: Invitation) => i.email
  const REQUESTED_EMAIL := (v: Verification) => v.email
  const INVITED_PHONE := (i: Invitation) => i.phone
  const INVITED_BY := (i: Invitation) => i.createdBy
  const REQUESTED_BY := (v: Verification) => v.requestedBy

  function PhoneOfSubject(env: Environment): Verification -> Option<string> {
    (v: Verification) =>
      if v.subjectUser.Some? && v.subjectUser.value in env.phones then Some(env.phones[v.subjectUser.value]) else None
  }

  ghost predicate FirstSourcesDecide(links: Links, invitations: seq<Invitation>, verifications: seq<Verification>,
      env: Environment, p: Id, person: Person)
    requires |links.invitations| == |invitations| && |links.verifications| == |verifications|
  {
    && FirstBrought(links, invitations, verifications, p, ACCEPTED, SUBJECT, person.linkedUser)
    && FirstBrought(links, invitations, verifications, p, INVITED_EMAIL, REQUESTED_EMAIL, person.primaryEmail)
    && FirstBrought(links, invitations, verifications, p, INVITED_PHONE, PhoneOfSubject(env), person.primaryPhone)
    && FirstBrought(links, invitations, verifications, p, INVITED_BY, REQUESTED_BY, person.addedBy)
    && LastNamed(links, invitations, verifications, p, person.fullName)
  }

  /** What is known of a person after the upgrade. */
  ghost predicate Outcome(links: Links, invitations: seq<Invitation>, verifications: seq<Verification>,
      env: Environment, p: Id, person: Person)
    requires |links.invitations| == |invitations| && |links.verifications| == |verifications|
  {
    && RelationshipEarned(links, invitations, verifications, env, p, person.relationship)
    && person.lastActivity.Some?
    && DatesSpan(links, invitations, verifications, env, p, person.addedAt, person.lastActivity.value)
    && FirstSourcesDecide(links, invitations, verifications, env, p, person)
  }

  lemma DatesAreSpanned(invitations: seq<Invitation>, verifications: seq<Verification>, env: Environment,
      links: Links, p: Id, added: Time, last: Time)
    requires Fits(links, invitations, verifications)
    requires |People(links)| == |AllRows(invitations, verifications, env)|
    requires IsEarliest(AllRows(invitations, verifications, env), People(links), p, added)
    requires forall k :: 0 <= k < |People(links)| ==>
      AllRows(invitations, verifications, env)[k].request.addedAt.Some?
    requires IsMaximum(last, Reported(AllRows(invitations, verifications, env), People(links), p)
      + TouchesOf(links, invitations, verifications, env, p) + {added, env.now})
    ensures DatesSpan(links, invitations, verifications, env, p, added, last)
  {
    var rows := AllRows(invitations, verifications, env);
    var touches := Reported(rows, People(links), p) + TouchesOf(links, invitations, verifications, env, p);
    hide Made, Touched, AllRows, People, Reported, TouchesOf, Fits;
    forall t
      ensures Made(links, invitations, verifications, p, t) <==>
        exists k :: 0 <= k < |People(links)| && People(links)[k] == p && rows[k].request.addedAt == Some(t)
      ensures Touched(links, invitations, verifications, env, p, t) <==> t in touches
    {
      MadeByRows(invitations, verifications, env, links, p, t);
      TouchedByRows(invitations, verifications, env, links, p, t);
    }
    assert env.now in touches + {added, env.now} && added in touches + {added, env.now};
  }

  lemma FirstSourcesDid(invitations: seq<Invitation>, verifications: seq<Verification>, env: Environment,
      links: Links, p: Id, person: Person)
    requires Fits(links, invitations, verifications)
    requires |People(links)| == |AllRows(invitations, verifications, env)|
    requires IdentifiedBy(AllRows(invitations, verifications, env), People(links), p, person)
    ensures FirstSourcesDecide(links, invitations, verifications, env, p, person)
  {
    hide IsFirst, IsLastName, FirstBrought, LastNamed, AllRows, People, Fits;
    FirstRowIsFirstBrought(invitations, verifications, env, links, p, USER, ACCEPTED, SUBJECT, person.linkedUser);
    FirstRowIsFirstBrought(invitations, verifications, env, links, p, EMAIL, INVITED_EMAIL, REQUESTED_EMAIL,
      person.primaryEmail);
    FirstRowIsFirstBrought(invitations, verifications, env, links, p, PHONE, INVITED_PHONE, PhoneOfSubject(env),
      person.primaryPhone);
    FirstRowIsFirstBrought(invitations, verifications, env, links, p, ADDER, INVITED_BY, REQUESTED_BY, person.addedBy);
    LastRowNames(invitations, verifications, env, links, p, person.fullName);
  }

  /** After the upgrade every person's relationship, dates, user, email, phone and adder are what the invitations,
      requests and employments linked to it say, and so is its name. */
  lemma UpgradeInSourceTerms(invitations: seq<Invitation>, verifications: seq<Verification>, env: Environment,
      links: Links, before: Registry, after: Registry, p: Id)
    requires Fits(links, invitations, verifications) && p in after.people
    requires Backfilled(invitations, verifications, env, links, before, after)
    ensures Outcome(links, invitations, verifications, env, p, after.people[p])
  {
    var rows, person := AllRows(invitations, verifications, env), after.people[p];
    RowsAreDated(invitations, verifications, env);
    hide AllRows, People, Contributed, Reported, TouchesOf, IdentifiedBy, IsEarliest, IsMaximum, RelationshipEarned,
      DatesSpan, FirstSourcesDecide, Top;
    assert FinalPerson(rows, People(links), TouchesOf(links, invitations, verifications, env, p), env.now, p,
      before.people[p], person);
    RelationshipsEarned(invitations, verifications, env, links, p);
    DatesAreSpanned(invitations, verifications, env, links, p, person.addedAt, person.lastActivity.value);
    FirstSourcesDid(invitations, verifications, env, links, p, person);
  }
}
