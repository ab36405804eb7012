/** Whole runs of the backfill: invitations, then verification requests, each resolved in turn. */
module BackfillRuns {
  import opened Common
  import opened PersonRegistry

  /** A source row: its request, and the earlier row whose person it is linked to, if any. */
  datatype Row = Row(request: Request, via: Option<nat>)

  function RequestAt(row: Row, ids: seq<Id>): Request {
    row.request.(existingPerson := if row.via.Some? && row.via.value < |ids| then Some(ids[row.via.value]) else None)
  }

  /** The registry and the person of each row, or the constraint that aborted the migration. */
  ghost function Run(rows: seq<Row>): Result<(Registry, seq<Id>), Conflict> {
    if rows == [] then Success((EMPTY, []))
    else
      var before := Run(rows[..|rows| - 1]);
      if before.Failure? then before
      else
        var (s, ids) := before.value;
        var step := Resolve(s, RequestAt(rows[|rows| - 1], ids));
        if step.Failure? then Failure(step.error) else Success((step.value.0, ids + [step.value.1]))
  }

  /** Every link the run meets is harmless: into the row's own organization, or without an email or phone new to the
      person. */
  ghost predicate LinksHarmless(rows: seq<Row>) {
    rows == [] ||
    var front := rows[..|rows| - 1];
    LinksHarmless(front) && (Run(front).Success? ==>
      LinkHarmless(Run(front).value.0, RequestAt(rows[|rows| - 1], Run(front).value.1)))
  }

  lemma {:induction false} HarmlessPrefix(rows: seq<Row>, n: nat)
    requires n <= |rows| && LinksHarmless(rows)
    ensures LinksHarmless(rows[..n])
    decreases |rows|
  {
    if n == |rows| {
      assert rows[..n] == rows;
    } else {
      assert rows[..|rows| - 1][..n] == rows[..n];
      HarmlessPrefix(rows[..|rows| - 1], n);
    }
  }

  /** Every row has led to a person. */
  ghost predicate PeopleOfRows(s: Registry, ids: seq<Id>) {
    forall i :: 0 <= i < |ids| ==> ids[i] in s.people
  }

  /** In every state a run reaches, the two tables agree. */
  lemma {:induction false} RunIsConsistent(rows: seq<Row>, s: Registry, ids: seq<Id>)
    requires LinksHarmless(rows) && Run(rows) == Success((s, ids))
    ensures Consistent(s) && |ids| == |rows| && PeopleOfRows(s, ids)
    decreases |rows|
  {
    if rows != [] {
      var front := rows[..|rows| - 1];
      var (s0, ids0) := Run(front).value;
      RunIsConsistent(front, s0, ids0);
      var r := RequestAt(rows[|rows| - 1], ids0);
      ResolveHasEffect(s0, r);
      assert ids[..|rows| - 1] == ids0;
      hide Consistent, StepEffect, Resolve, LinkHarmless;
      StepKeepsConsistent(s0, r, s, ids[|rows| - 1]);
      StepKeepsPeople(s0, r, s, ids0, ids[|rows| - 1]);
    }
  }

  lemma StepKeepsPeople(s0: Registry, r: Request, s: Registry, ids: seq<Id>, p: Id)
    requires Consistent(s0) && StepEffect(s0, r, s, p) && PeopleOfRows(s0, ids)
    ensures PeopleOfRows(s, ids + [p])
  {
    hide Find, LinkClash, Merged, NewPerson, FreeFor, WithKey;
  }

  lemma LastRowHarmless(rows: seq<Row>)
    requires rows != [] && Run(rows).Success?
    ensures var front := rows[..|rows| - 1];
      && Run(front).Success?
      && (Consistent(Run(front).value.0) ==>
            (Consistent(Run(rows).value.0) <==>
             LinkHarmless(Run(front).value.0, RequestAt(rows[|rows| - 1], Run(front).value.1))))
  {
    var (s, ids) := Run(rows[..|rows| - 1]).value;
    if Consistent(s) {
      ConsistentExactlyWhen(s, RequestAt(rows[|rows| - 1], ids));
    }
    hide Resolve, Consistent, LinkHarmless;
  }

  /** All prefixes of a run leave the two tables in agreement exactly when every link it meets is harmless. */
  lemma {:induction false} ConsistentExactlyWhenHarmless(rows: seq<Row>)
    requires Run(rows).Success?
    ensures (forall n :: 0 <= n <= |rows| ==> ConsistentAt(rows, n)) <==> LinksHarmless(rows)
    decreases |rows|
  {
    if rows == [] {
      assert Consistent(EMPTY);
    } else {
      var front := rows[..|rows| - 1];
      LastRowHarmless(rows);
      hide Run, Consistent, LinkHarmless, RequestAt;
      assert rows[..|rows|] == rows && rows[..|front|] == front;
      assert ConsistentAt(rows, |rows|) == Consistent(Run(rows).value.0);
      assert ConsistentAt(rows, |front|) == Consistent(Run(front).value.0);
      ConsistentExactlyWhenHarmless(front);
      forall n | 0 <= n <= |front|
        ensures ConsistentAt(front, n) == ConsistentAt(rows, n)
      {
        assert front[..n] == rows[..n];
      }
    }
  }

  ghost predicate ConsistentAt(rows: seq<Row>, n: nat)
    requires n <= |rows|
  {
    Run(rows[..n]).Success? && Consistent(Run(rows[..n]).value.0)
  }

  /** Two rows are enough: the second linked to the first, of another organization, with an email of its own. */
  lemma ForeignLinkBreaksTables()
    ensures exists rows :: |rows| == 2 && Run(rows).Success? && !Consistent(Run(rows).value.0)
  {
    var r := Request(1, None, None, "Ada", Some("a@x"), None, Some("a@x"), None, Candidate, None, Some(0), Some(0), 0);
    var rows := [Row(r, None), Row(r.(organization := 2, email := Some("b@x"), rawEmail := Some("b@x")), Some(0))];
    var first := rows[..1];
    assert first[..0] == [] && first[0] == rows[0] && rows[..|rows| - 1] == first;
    var (s, ids) := (Registry(map[0 := NewPerson(r)], map[Key(1, EmailKind, "a@x") := Identifier(0, Some("a@x"), true)],
      1), [0]);
    FirstRow(r);
    assert |first| == 1 && Run(first[..|first| - 1]) == Success((EMPTY, [])) && RequestAt(first[|first| - 1], []) == r;
    assert [] + [0] == ids;
    assert Run(first) == Success((s, ids));
    var q := RequestAt(rows[1], ids);
    assert Find(s, q) == Some((0, ExistingLink));
    var s1 := WritePerson(s, q).value.0;
    assert s1.identifiers == s.identifiers && s1.people.Keys == {0};
    var key := Key(2, EmailKind, "b@x");
    assert EnsureIdentifier(s1, 0, key, q.rawEmail) ==
      Success(s1.(identifiers := s1.identifiers[key := Identifier(0, q.rawEmail, true)]));
    var t := Run(rows).value.0;
    assert key in t.identifiers && t.identifiers[key].person == 0 && t.people[0].organization == 1;
  }

  lemma FirstRow(r: Request)
    requires r.existingPerson.None? && r.linkedUser.None? && r.email.Some? && r.phone.None?
    ensures Resolve(EMPTY, r) == Success((Registry(map[0 := NewPerson(r)],
      map[Key(r.organization, EmailKind, r.email.value) := Identifier(0, r.rawEmail, true)], 1), 0))
  {
    var key := Key(r.organization, EmailKind, r.email.value);
    assert forall p :: !HasPrimary(EMPTY, key, p) && !HasIdentifier(EMPTY, key, p);
    assert Find(EMPTY, r).None?;
    var s1 := WritePerson(EMPTY, r).value.0;
    assert forall k :: !OwnRow(s1, 0, key, k);
    assert EnsureIdentifier(s1, 0, key, r.rawEmail).Success?;
  }

  // ----- links within the organization are harmless

  /** A row is linked only to an earlier row of its own organization. */
  predicate LinksWithinOrganization(rows: seq<Row>) {
    forall i :: 0 <= i < |rows| && rows[i].via.Some? ==>
      rows[i].via.value < i && rows[rows[i].via.value].request.organization == rows[i].request.organization
  }

  /** The person of every row is a person of that row's organization. */
  ghost predicate PeopleAtHome(rows: seq<Row>, s: Registry, ids: seq<Id>) {
    && |ids| == |rows|
    && forall i :: 0 <= i < |rows| ==>
      ids[i] in s.people && s.people[ids[i]].organization == rows[i].request.organization
  }

  lemma LinkedRowIsHome(rows: seq<Row>, s: Registry, ids: seq<Id>)
    requires rows != [] && LinksWithinOrganization(rows)
    requires PeopleAtHome(rows[..|rows| - 1], s, ids)
    ensures SameOrganization(s, RequestAt(rows[|rows| - 1], ids))
  {
    var row := rows[|rows| - 1];
    if row.via.Some? {
      assert rows[..|rows| - 1][row.via.value] == rows[row.via.value];
    }
  }

  /** A condition that can be read off the source rows: no row is linked out of its organization. */
  lemma {:induction false} LinksWithinAreHarmless(rows: seq<Row>)
    requires LinksWithinOrganization(rows)
    ensures LinksHarmless(rows)
    ensures Run(rows).Success? ==> PeopleAtHome(rows, Run(rows).value.0, Run(rows).value.1)
    decreases |rows|
  {
    if rows != [] {
      var n := |rows| - 1;
      LinksWithinAreHarmless(rows[..n]);
      if Run(rows[..n]).Success? {
        var (s0, ids0) := Run(rows[..n]).value;
        LinkedRowIsHome(rows, s0, ids0);
        if Run(rows).Success? {
          RunIsConsistent(rows[..n], s0, ids0);
          ResolveHasEffect(s0, RequestAt(rows[n], ids0));
          assert Run(rows).value.1[..n] == ids0;
          StepStaysHome(rows, s0, Run(rows).value.0, Run(rows).value.1);
        }
      }
    }
  }

  lemma StepStaysHome(rows: seq<Row>, s0: Registry, s: Registry, ids: seq<Id>)
    requires rows != [] && |ids| == |rows| && Consistent(s0)
    requires PeopleAtHome(rows[..|rows| - 1], s0, ids[..|rows| - 1])
    requires SameOrganization(s0, RequestAt(rows[|rows| - 1], ids[..|rows| - 1]))
    requires StepEffect(s0, RequestAt(rows[|rows| - 1], ids[..|rows| - 1]), s, ids[|rows| - 1])
    ensures PeopleAtHome(rows, s, ids)
  {
    var n := |rows| - 1;
    StepGrows(s0, RequestAt(rows[n], ids[..n]), s, ids[n]);
    hide Find, LinkClash, Consistent, FreeFor, WithKey;
    forall i | 0 <= i < n
      ensures ids[i] in s.people && s.people[ids[i]].organization == rows[i].request.organization
    {
      assert rows[..n][i] == rows[i] && ids[..n][i] == ids[i];
      assert PersonGrows(s0.people[ids[i]], s.people[ids[i]]);
    }
  }

  // ----- what a run only adds to

  /** A longer run only adds: nobody loses an identifier, a link, a primary email or a primary phone. */
  lemma {:induction false} RunGrows(rows: seq<Row>, n: nat, s: Registry, ids: seq<Id>)
    requires n <= |rows| && LinksHarmless(rows) && Run(rows) == Success((s, ids))
    ensures Run(rows[..n]).Success? && Grows(Run(rows[..n]).value.0, s)
    ensures Run(rows[..n]).value.1 <= ids
    decreases |rows|
  {
    if n == |rows| {
      assert rows[..n] == rows;
    } else {
      var front := rows[..|rows| - 1];
      var (s0, ids0) := Run(front).value;
      assert front[..n] == rows[..n];
      RunGrows(front, n, s0, ids0);
      RunIsConsistent(front, s0, ids0);
      var r := RequestAt(rows[|rows| - 1], ids0);
      ResolveHasEffect(s0, r);
      StepGrows(s0, r, s, ids[|ids| - 1]);
      GrowsTransitive(Run(rows[..n]).value.0, s0, s);
    }
  }

  /** An email attached at any point of a run keeps leading to the same person in every later state. */
  lemma AttachedEmailIsStable(rows: seq<Row>, n: nat, s: Registry, ids: seq<Id>, r: Request, email: string)
    requires n <= |rows| && LinksHarmless(rows) && Run(rows) == Success((s, ids))
    requires EmailOnly(r, email)
    requires var key := Key(r.organization, EmailKind, email);
      Run(rows[..n]).Success? && key in Run(rows[..n]).value.0.identifiers
    ensures Resolve(s, r).Success?
    ensures Resolve(s, r).value.1 == Run(rows[..n]).value.0.identifiers[Key(r.organization, EmailKind, email)].person
  {
    RunGrows(rows, n, s, ids);
    RunIsConsistent(rows, s, ids);
    EmailFindsItsOwner(s, r, email);
  }

  // ----- folded fields

  function Contributed(rows: seq<Row>, ids: seq<Id>, p: Id): set<Relationship>
    requires |ids| == |rows|
  {
    set i | 0 <= i < |rows| && ids[i] == p :: rows[i].request.relationship
  }

  /** The relationship of highest priority in a set. */
  function Top(rs: set<Relationship>): Relationship {
    if FormerEmployee in rs then FormerEmployee else if Employee in rs then Employee
    else if Contractor in rs then Contractor else if FutureEmployee in rs then FutureEmployee else Candidate
  }

  lemma TopMerges(rs: set<Relationship>, r: Relationship)
    requires rs != {}
    ensures Top(rs + {r}) == MergeRelationship(Top(rs), r)
  {
    var x :| x in rs;
    match x case Candidate => case FutureEmployee => case Contractor => case Employee => case FormerEmployee =>
  }

  /** Some row about `p` has this value in the given column, and every row about `p` has one at least as late. */
  ghost predicate IsEarliest(rows: seq<Row>, ids: seq<Id>, p: Id, t: Time)
    requires |ids| == |rows|
  {
    && (exists i :: 0 <= i < |rows| && ids[i] == p && rows[i].request.addedAt == Some(t))
    && (forall i :: 0 <= i < |rows| && ids[i] == p && rows[i].request.addedAt.Some? ==>
      t <= rows[i].request.addedAt.value)
  }

  ghost predicate IsLatest(rows: seq<Row>, ids: seq<Id>, p: Id, t: Option<Time>)
    requires |ids| == |rows|
  {
    && (t.Some? ==> exists i :: 0 <= i < |rows| && ids[i] == p && rows[i].request.lastActivity == t)
    && (forall i :: 0 <= i < |rows| && ids[i] == p && rows[i].request.lastActivity.Some? ==>
          t.Some? && rows[i].request.lastActivity.value <= t.value)
  }

  /** `added_at` is filled in every source row. */
  predicate Dated(rows: seq<Row>) {
    forall i :: 0 <= i < |rows| ==> rows[i].request.addedAt.Some?
  }

  // ----- the columns filled in once

  /** The first value that a row about `p` brings, if any does. */
  ghost predicate IsFirst<T(!new)>(rows: seq<Row>, ids: seq<Id>, p: Id, column: Request -> Option<T>, value: Option<T>)
    requires |ids| == |rows|
  {
    if value.None? then forall i :: 0 <= i < |rows| && ids[i] == p ==> column(rows[i].request).None?
    else
      exists i :: 0 <= i < |rows| && ids[i] == p && column(rows[i].request) == value
        && forall j :: 0 <= j < i && ids[j] == p ==> column(rows[j].request).None?
  }

  /** The name of the last row about `p` that has one. */
  ghost predicate IsLastName(rows: seq<Row>, ids: seq<Id>, p: Id, name: string)
    requires |ids| == |rows|
  {
    if name == "" then forall i :: 0 <= i < |rows| && ids[i] == p ==> rows[i].request.fullName == ""
    else
      exists i :: 0 <= i < |rows| && ids[i] == p && rows[i].request.fullName == name
        && forall j :: i < j < |rows| && ids[j] == p ==> rows[j].request.fullName == ""
  }

  const USER := (r: Request) => r.linkedUser
  const EMAIL := (r: Request) => r.email
  const PHONE := (r: Request) => r.phone
  const ADDER := (r: Request) => r.addedBy
  const HOME := (r: Request) => Some(r.organization)

  /** Who the rows about `p` say it is: first come, first kept, except for the name. */
  ghost predicate IdentifiedBy(rows: seq<Row>, ids: seq<Id>, p: Id, person: Person)
    requires |ids| == |rows|
  {
    && IsFirst(rows, ids, p, HOME, Some(person.organization)) && IsFirst(rows, ids, p, USER, person.linkedUser)
    && IsFirst(rows, ids, p, EMAIL, person.primaryEmail) && IsFirst(rows, ids, p, PHONE, person.primaryPhone)
    && IsFirst(rows, ids, p, ADDER, person.addedBy) && IsLastName(rows, ids, p, person.fullName)
  }

  lemma FirstUntouched<T(!new)>(rows: seq<Row>, ids: seq<Id>, p: Id, column: Request -> Option<T>, value: Option<T>)
    requires rows != [] && |ids| == |rows| && ids[|rows| - 1] != p
    requires IsFirst(rows[..|rows| - 1], ids[..|rows| - 1], p, column, value)
    ensures IsFirst(rows, ids, p, column, value)
  {
    var n := |rows| - 1;
    if value.Some? {
      var i :| 0 <= i < n && ids[..n][i] == p && column(rows[..n][i].request) == value
        && forall j :: 0 <= j < i && ids[..n][j] == p ==> column(rows[..n][j].request).None?;
      assert ids[i] == p && column(rows[i].request) == value;
      forall j | 0 <= j < i && ids[j] == p
        ensures column(rows[j].request).None?
      {
        assert ids[..n][j] == p;
      }
    } else {
      forall i | 0 <= i < n && ids[i] == p
        ensures column(rows[i].request).None?
      {
        assert ids[..n][i] == p;
      }
    }
  }

  lemma FirstMerges<T(!new)>(rows: seq<Row>, ids: seq<Id>, p: Id, column: Request -> Option<T>, before: Option<T>,
      after: Option<T>)
    requires rows != [] && |ids| == |rows| && ids[|rows| - 1] == p
    requires IsFirst(rows[..|rows| - 1], ids[..|rows| - 1], p, column, before)
    requires FilledIn(before, column(rows[|rows| - 1].request), after)
    ensures IsFirst(rows, ids, p, column, after)
  {
    var n := |rows| - 1;
    if before.Some? {
      var i :| 0 <= i < n && ids[..n][i] == p && column(rows[..n][i].request) == before
        && forall j :: 0 <= j < i && ids[..n][j] == p ==> column(rows[..n][j].request).None?;
      assert ids[i] == p && column(rows[i].request) == after;
      forall j | 0 <= j < i && ids[j] == p
        ensures column(rows[j].request).None?
      {
        assert ids[..n][j] == p;
      }
    } else {
      forall i | 0 <= i < n && ids[i] == p
        ensures column(rows[i].request).None?
      {
        assert ids[..n][i] == p;
      }
      assert ids[n] == p && column(rows[n].request) == after;
    }
  }

  lemma FirstStarts<T(!new)>(rows: seq<Row>, ids: seq<Id>, p: Id, column: Request -> Option<T>)
    requires rows != [] && |ids| == |rows| && ids[|rows| - 1] == p
    requires forall i :: 0 <= i < |rows| - 1 ==> ids[i] != p
    ensures IsFirst(rows, ids, p, column, column(rows[|rows| - 1].request))
  {
    assert ids[|rows| - 1] == p;
  }

  lemma LastNameUntouched(rows: seq<Row>, ids: seq<Id>, p: Id, name: string)
    requires rows != [] && |ids| == |rows| && ids[|rows| - 1] != p
    requires IsLastName(rows[..|rows| - 1], ids[..|rows| - 1], p, name)
    ensures IsLastName(rows, ids, p, name)
  {
    var n := |rows| - 1;
    assert forall i :: 0 <= i < n ==> rows[..n][i] == rows[i] && ids[..n][i] == ids[i];
    if name != "" {
      var i :| 0 <= i < n && ids[..n][i] == p && rows[..n][i].request.fullName == name
        && forall j :: i < j < n && ids[..n][j] == p ==> rows[..n][j].request.fullName == "";
      assert ids[i] == p && rows[i].request.fullName == name;
    }
  }

  lemma LastNameMerges(rows: seq<Row>, ids: seq<Id>, p: Id, before: string)
    requires rows != [] && |ids| == |rows| && ids[|rows| - 1] == p
    requires IsLastName(rows[..|rows| - 1], ids[..|rows| - 1], p, before)
    ensures var given := rows[|rows| - 1].request.fullName;
      IsLastName(rows, ids, p, if given == "" then before else given)
  {
    var n := |rows| - 1;
    var given := rows[n].request.fullName;
    assert forall i :: 0 <= i < n ==> rows[..n][i] == rows[i] && ids[..n][i] == ids[i];
    if given != "" {
      assert ids[n] == p && rows[n].request.fullName == given;
    } else if before != "" {
      var i :| 0 <= i < n && ids[..n][i] == p && rows[..n][i].request.fullName == before
        && forall j :: i < j < n && ids[..n][j] == p ==> rows[..n][j].request.fullName == "";
      assert ids[i] == p && rows[i].request.fullName == before;
    }
  }

  lemma IdentityUntouched(rows: seq<Row>, ids: seq<Id>, p: Id, person: Person)
    requires rows != [] && |ids| == |rows| && ids[|rows| - 1] != p
    requires IdentifiedBy(rows[..|rows| - 1], ids[..|rows| - 1], p, person)
    ensures IdentifiedBy(rows, ids, p, person)
  {
    FirstUntouched(rows, ids, p, HOME, Some(person.organization));
    FirstUntouched(rows, ids, p, USER, person.linkedUser);
    FirstUntouched(rows, ids, p, EMAIL, person.primaryEmail);
    FirstUntouched(rows, ids, p, PHONE, person.primaryPhone);
    FirstUntouched(rows, ids, p, ADDER, person.addedBy);
    LastNameUntouched(rows, ids, p, person.fullName);
    hide IsFirst, IsLastName;
  }

  lemma IdentityMerges(rows: seq<Row>, ids: seq<Id>, p: Id, before: Person, how: Method, after: Person)
    requires rows != [] && |ids| == |rows| && ids[|rows| - 1] == p
    requires IdentifiedBy(rows[..|rows| - 1], ids[..|rows| - 1], p, before)
    requires Updated(before, RequestAt(rows[|rows| - 1], ids[..|rows| - 1]), how, after)
    ensures IdentifiedBy(rows, ids, p, after)
  {
    FirstMerges(rows, ids, p, HOME, Some(before.organization), Some(after.organization));
    FirstMerges(rows, ids, p, USER, before.linkedUser, after.linkedUser);
    FirstMerges(rows, ids, p, EMAIL, before.primaryEmail, after.primaryEmail);
    FirstMerges(rows, ids, p, PHONE, before.primaryPhone, after.primaryPhone);
    FirstMerges(rows, ids, p, ADDER, before.addedBy, after.addedBy);
    LastNameMerges(rows, ids, p, before.fullName);
    hide IsFirst, IsLastName;
  }

  lemma IdentityStarts(rows: seq<Row>, ids: seq<Id>, p: Id, person: Person)
    requires rows != [] && |ids| == |rows| && ids[|rows| - 1] == p
    requires forall i :: 0 <= i < |rows| - 1 ==> ids[i] != p
    requires Introduced(RequestAt(rows[|rows| - 1], ids[..|rows| - 1]), person)
    ensures IdentifiedBy(rows, ids, p, person)
  {
    FirstStarts(rows, ids, p, HOME);
    FirstStarts(rows, ids, p, USER);
    FirstStarts(rows, ids, p, EMAIL);
    FirstStarts(rows, ids, p, PHONE);
    FirstStarts(rows, ids, p, ADDER);
    hide IsFirst;
    assert ids[|rows| - 1] == p;
  }

  ghost predicate AllIdentified(rows: seq<Row>, s: Registry, ids: seq<Id>) {
    |ids| == |rows| && forall p :: p in s.people ==> IdentifiedBy(rows, ids, p, s.people[p])
  }

  lemma IdentityStep(rows: seq<Row>, s0: Registry, s: Registry, ids: seq<Id>)
    requires rows != [] && |ids| == |rows| && PeopleOfRows(s0, ids[..|rows| - 1])
    requires AllIdentified(rows[..|rows| - 1], s0, ids[..|rows| - 1])
    requires var (q, r) := (ids[|rows| - 1], RequestAt(rows[|rows| - 1], ids[..|rows| - 1]));
      && q in s.people && s.people == s0.people[q := s.people[q]]
      && (if q in s0.people then exists how :: Updated(s0.people[q], r, how, s.people[q])
          else Introduced(r, s.people[q]))
    ensures AllIdentified(rows, s, ids)
  {
    var n := |rows| - 1;
    var q, r := ids[n], RequestAt(rows[n], ids[..n]);
    hide IdentifiedBy, Updated, Introduced;
    forall p | p in s.people
      ensures IdentifiedBy(rows, ids, p, s.people[p])
    {
      if p != q {
        IdentityUntouched(rows, ids, p, s.people[p]);
      } else if q in s0.people {
        var how :| Updated(s0.people[q], r, how, s.people[q]);
        IdentityMerges(rows, ids, p, s0.people[p], how, s.people[p]);
      } else {
        forall i | 0 <= i < n
          ensures ids[i] != p
        {
          assert ids[..n][i] in s0.people;
        }
        IdentityStarts(rows, ids, p, s.people[p]);
      }
    }
  }

  /** Over every run a person's organization, user, email, phone and adder are those of the first row about it that
      brought one, and its name is that of the last row that had one. */
  lemma {:induction false} RunIdentifies(rows: seq<Row>, s: Registry, ids: seq<Id>)
    requires LinksHarmless(rows) && Run(rows) == Success((s, ids))
    ensures AllIdentified(rows, s, ids)
    decreases |rows|
  {
    if rows != [] {
      var n := |rows| - 1;
      var (s0, ids0) := Run(rows[..n]).value;
      RunIdentifies(rows[..n], s0, ids0);
      RunIsConsistent(rows[..n], s0, ids0);
      var r := RequestAt(rows[n], ids0);
      ResolveHasEffect(s0, r);
      ResolveFillsIn(s0, r);
      assert ids[..n] == ids0;
      assert s.people == s0.people[ids[n] := s.people[ids[n]]] by {
        hide Merged, NewPerson, Find, FreeFor, WithKey, LinkClash;
      }
      hide Run, Resolve, Consistent, StepEffect, Updated, Introduced, AllIdentified, RequestAt, LinkHarmless;
      IdentityStep(rows, s0, s, ids);
    }
  }

  // ----- the identifier table

  /** Row `i` brings this key: it has the value, and is about a person of the key's organization. */
  predicate BringsKey(rows: seq<Row>, s: Registry, ids: seq<Id>, i: int, key: Key)
    requires |ids| == |rows|
  {
    && 0 <= i < |rows| && ids[i] in s.people && s.people[ids[i]].organization == key.organization
    && (if key.kind == EmailKind then rows[i].request.email else rows[i].request.phone) == Some(key.value)
  }

  /** A key is in the table exactly when some row brought it, as the last such row gives it. */
  ghost predicate Stored(rows: seq<Row>, s: Registry, ids: seq<Id>) {
    && |ids| == |rows|
    && forall key ::
         && (key !in s.identifiers ==> forall i :: !BringsKey(rows, s, ids, i, key))
         && (key in s.identifiers ==> StoredFromLast(rows, s, ids, key))
  }

  ghost predicate StoredFromLast(rows: seq<Row>, s: Registry, ids: seq<Id>, key: Key)
    requires |ids| == |rows| && key in s.identifiers
  {
    exists i :: BringsKey(rows, s, ids, i, key) && (forall j :: i < j ==> !BringsKey(rows, s, ids, j, key))
      && s.identifiers[key] ==
           Identifier(ids[i], if key.kind == EmailKind then rows[i].request.rawEmail
             else rows[i].request.rawPhone, true)
  }

  lemma SameBringers(rows: seq<Row>, s0: Registry, s: Registry, ids: seq<Id>, key: Key)
    requires rows != [] && |ids| == |rows| && PeopleOfRows(s0, ids[..|rows| - 1])
    requires forall p :: p in s0.people ==> p in s.people && s.people[p].organization == s0.people[p].organization
    ensures forall i :: i < |rows| - 1 ==>
      BringsKey(rows, s, ids, i, key) == BringsKey(rows[..|rows| - 1], s0, ids[..|rows| - 1], i, key)
  {
    var n := |rows| - 1;
    assert forall i :: 0 <= i < n ==> rows[..n][i] == rows[i] && ids[..n][i] == ids[i];
  }

  lemma StoredStep(rows: seq<Row>, s0: Registry, s: Registry, ids: seq<Id>)
    requires rows != [] && |ids| == |rows| && PeopleOfRows(s0, ids[..|rows| - 1])
    requires Stored(rows[..|rows| - 1], s0, ids[..|rows| - 1])
    requires StepEffect(s0, RequestAt(rows[|rows| - 1], ids[..|rows| - 1]), s, ids[|rows| - 1])
    ensures Stored(rows, s, ids)
  {
    var n := |rows| - 1;
    var r, p := RequestAt(rows[n], ids[..n]), ids[n];
    assert s.people[p].organization == Home(s0, r, p);
    assert forall q :: q in s0.people ==> q in s.people && s.people[q].organization == s0.people[q].organization;
    hide Find, LinkClash, Merged, NewPerson, FreeFor, Home;
    forall key
      ensures key !in s.identifiers ==> forall i :: !BringsKey(rows, s, ids, i, key)
      ensures key in s.identifiers ==> StoredFromLast(rows, s, ids, key)
    {
      SameBringers(rows, s0, s, ids, key);
      if BringsKey(rows, s, ids, n, key) {
        assert key in s.identifiers;
        assert StoredFromLast(rows, s, ids, key);
      } else if key in s.identifiers {
        assert key in s0.identifiers && s.identifiers[key] == s0.identifiers[key];
        StoredEarlier(rows, s0, s, ids, key);
      }
    }
  }

  lemma StoredEarlier(rows: seq<Row>, s0: Registry, s: Registry, ids: seq<Id>, key: Key)
    requires rows != [] && |ids| == |rows| && PeopleOfRows(s0, ids[..|rows| - 1])
    requires forall p :: p in s0.people ==> p in s.people && s.people[p].organization == s0.people[p].organization
    requires key in s0.identifiers && key in s.identifiers && s.identifiers[key] == s0.identifiers[key]
    requires StoredFromLast(rows[..|rows| - 1], s0, ids[..|rows| - 1], key)
    requires !BringsKey(rows, s, ids, |rows| - 1, key)
    ensures StoredFromLast(rows, s, ids, key)
  {
    var n := |rows| - 1;
    SameBringers(rows, s0, s, ids, key);
    var i :| BringsKey(rows[..n], s0, ids[..n], i, key) && (forall j :: i < j ==> !BringsKey(rows[..n], s0, ids[..n], j,
      key))
      && s0.identifiers[key] == Identifier(ids[..n][i], if key.kind == EmailKind then rows[..n][i].request.rawEmail
        else rows[..n][i].request.rawPhone, true);
    assert BringsKey(rows, s, ids, i, key);
    forall j | i < j
      ensures !BringsKey(rows, s, ids, j, key)
    {
      if j < n {
        assert !BringsKey(rows[..n], s0, ids[..n], j, key);
      }
    }
  }

  /** Over every run the identifier table holds exactly the emails and phones that the rows brought, each with the
      person and the spelling of the last row that brought it. */
  lemma {:induction false} RunStores(rows: seq<Row>, s: Registry, ids: seq<Id>)
    requires LinksHarmless(rows) && Run(rows) == Success((s, ids))
    ensures Stored(rows, s, ids)
    decreases |rows|
  {
    if rows != [] {
      var n := |rows| - 1;
      var (s0, ids0) := Run(rows[..n]).value;
      RunStores(rows[..n], s0, ids0);
      RunIsConsistent(rows[..n], s0, ids0);
      ResolveHasEffect(s0, RequestAt(rows[n], ids0));
      assert ids[..n] == ids0;
      hide Run, Resolve, Consistent, StepEffect, Stored, RequestAt, LinkHarmless, LinksHarmless;
      StoredStep(rows, s0, s, ids);
    }
  }

  // ----- the columns folded

  /** The folded fields of a person depend only on which rows were about that person. */
  ghost predicate Folded(rows: seq<Row>, s: Registry, ids: seq<Id>) {
    && |ids| == |rows|
    && forall p :: p in s.people ==> FoldedFor(rows, ids, p, s.people[p])
  }

  lemma ContributedGrows(rows: seq<Row>, ids: seq<Id>, p: Id)
    requires rows != [] && |ids| == |rows|
    ensures var n := |rows| - 1;
      Contributed(rows, ids, p) == Contributed(rows[..n], ids[..n], p) + if ids[n] == p then
        {rows[n].request.relationship} else {}
  {
    var n := |rows| - 1;
    assert forall i :: 0 <= i < n ==> rows[..n][i] == rows[i] && ids[..n][i] == ids[i];
    forall x | x in Contributed(rows[..n], ids[..n], p)
      ensures x in Contributed(rows, ids, p)
    {
      var i :| 0 <= i < n && ids[..n][i] == p && rows[..n][i].request.relationship == x;
      assert ids[i] == p && rows[i].request.relationship == x;
    }
  }

  /** One more row about someone else leaves a person's extremes alone. */
  lemma ExtremesUntouched(rows: seq<Row>, ids: seq<Id>, p: Id, at: Time, last: Option<Time>)
    requires rows != [] && |ids| == |rows| && ids[|rows| - 1] != p
    requires IsEarliest(rows[..|rows| - 1], ids[..|rows| - 1], p, at)
      && IsLatest(rows[..|rows| - 1], ids[..|rows| - 1], p, last)
    ensures IsEarliest(rows, ids, p, at) && IsLatest(rows, ids, p, last)
  {
    var n := |rows| - 1;
    var i :| 0 <= i < n && ids[..n][i] == p && rows[..n][i].request.addedAt == Some(at);
    assert ids[i] == p && rows[i].request.addedAt == Some(at);
    if last.Some? {
      var j :| 0 <= j < n && ids[..n][j] == p && rows[..n][j].request.lastActivity == last;
      assert ids[j] == p && rows[j].request.lastActivity == last;
    }
    assert forall k :: 0 <= k < n ==> rows[..n][k] == rows[k] && ids[..n][k] == ids[k];
  }

  /** One more row about the person itself: the smaller date, the larger activity. */
  lemma ExtremesMerge(rows: seq<Row>, ids: seq<Id>, p: Id, at: Time, last: Option<Time>)
    requires rows != [] && |ids| == |rows| && ids[|rows| - 1] == p && rows[|rows| - 1].request.addedAt.Some?
    requires IsEarliest(rows[..|rows| - 1], ids[..|rows| - 1], p, at)
      && IsLatest(rows[..|rows| - 1], ids[..|rows| - 1], p, last)
    ensures var r := rows[|rows| - 1].request;
      && IsEarliest(rows, ids, p, if r.addedAt.value < at then r.addedAt.value else at)
      && IsLatest(rows, ids, p, Later(last, r.lastActivity))
  {
    var n := |rows| - 1;
    var r := rows[n].request;
    assert ids[n] == p && rows[n].request == r;
    var i :| 0 <= i < n && ids[..n][i] == p && rows[..n][i].request.addedAt == Some(at);
    assert ids[i] == p && rows[i].request.addedAt == Some(at);
    if last.Some? {
      var j :| 0 <= j < n && ids[..n][j] == p && rows[..n][j].request.lastActivity == last;
      assert ids[j] == p && rows[j].request.lastActivity == last;
    }
    assert forall k :: 0 <= k < n ==> rows[..n][k] == rows[k] && ids[..n][k] == ids[k];
  }

  /** The first row about a person is all there is to fold. */
  lemma ExtremesStart(rows: seq<Row>, ids: seq<Id>, p: Id)
    requires rows != [] && |ids| == |rows| && ids[|rows| - 1] == p && rows[|rows| - 1].request.addedAt.Some?
    requires forall i :: 0 <= i < |rows| - 1 ==> ids[i] != p
    ensures var r := rows[|rows| - 1].request;
      IsEarliest(rows, ids, p, r.addedAt.value) && IsLatest(rows, ids, p, r.lastActivity)
    ensures Contributed(rows, ids, p) == {rows[|rows| - 1].request.relationship}
  {
    assert rows[|rows| - 1].request.addedAt == Some(rows[|rows| - 1].request.addedAt.value);
  }

  /** Relationship, first date and last activity come out as the extremes of the contributing rows, in whatever order
      they came. */
  lemma {:induction false} RunFolds(rows: seq<Row>, s: Registry, ids: seq<Id>)
    requires LinksHarmless(rows) && Dated(rows) && Run(rows) == Success((s, ids))
    ensures Folded(rows, s, ids)
    decreases |rows|
  {
    if rows != [] {
      var n := |rows| - 1;
      var (s0, ids0) := Run(rows[..n]).value;
      RunFolds(rows[..n], s0, ids0);
      RunIsConsistent(rows[..n], s0, ids0);
      ResolveHasEffect(s0, RequestAt(rows[n], ids0));
      assert ids[..n] == ids0;
      FoldStep(rows, s0, s, ids);
    }
  }

  ghost predicate FoldedFor(rows: seq<Row>, ids: seq<Id>, p: Id, person: Person)
    requires |ids| == |rows|
  {
    && Contributed(rows, ids, p) != {}
    && person.relationship == Top(Contributed(rows, ids, p))
    && IsEarliest(rows, ids, p, person.addedAt)
    && IsLatest(rows, ids, p, person.lastActivity)
  }

  lemma FoldOther(rows: seq<Row>, ids: seq<Id>, p: Id, person: Person)
    requires rows != [] && |ids| == |rows| && ids[|rows| - 1] != p
    requires FoldedFor(rows[..|rows| - 1], ids[..|rows| - 1], p, person)
    ensures FoldedFor(rows, ids, p, person)
  {
    ContributedGrows(rows, ids, p);
    ExtremesUntouched(rows, ids, p, person.addedAt, person.lastActivity);
  }

  lemma FoldKnown(rows: seq<Row>, ids: seq<Id>, p: Id, person: Person, r: Request, how: Method)
    requires rows != [] && |ids| == |rows| && ids[|rows| - 1] == p && rows[|rows| - 1].request.addedAt.Some?
    requires FoldedFor(rows[..|rows| - 1], ids[..|rows| - 1], p, person)
    requires r == RequestAt(rows[|rows| - 1], ids[..|rows| - 1])
    ensures FoldedFor(rows, ids, p, Merged(person, r, how))
  {
    ContributedGrows(rows, ids, p);
    TopMerges(Contributed(rows[..|rows| - 1], ids[..|rows| - 1], p), r.relationship);
    ExtremesMerge(rows, ids, p, person.addedAt, person.lastActivity);
  }

  lemma FoldNew(rows: seq<Row>, ids: seq<Id>, p: Id, r: Request)
    requires rows != [] && |ids| == |rows| && ids[|rows| - 1] == p && rows[|rows| - 1].request.addedAt.Some?
    requires forall i :: 0 <= i < |rows| - 1 ==> ids[i] != p
    requires r == RequestAt(rows[|rows| - 1], ids[..|rows| - 1])
    ensures FoldedFor(rows, ids, p, NewPerson(r))
  {
    ExtremesStart(rows, ids, p);
  }

  lemma FoldStep(rows: seq<Row>, s0: Registry, s: Registry, ids: seq<Id>)
    requires rows != [] && |ids| == |rows| && Dated(rows)
    requires PeopleOfRows(s0, ids[..|rows| - 1])
    requires Folded(rows[..|rows| - 1], s0, ids[..|rows| - 1])
    requires StepEffect(s0, RequestAt(rows[|rows| - 1], ids[..|rows| - 1]), s, ids[|rows| - 1])
    ensures Folded(rows, s, ids)
  {
    var n := |rows| - 1;
    var q, r := ids[n], RequestAt(rows[n], ids[..n]);
    hide Find, LinkClash, Merged, NewPerson, FoldedFor, FreeFor, WithKey;
    forall p | p in s.people
      ensures FoldedFor(rows, ids, p, s.people[p])
    {
      if p != q {
        FoldOther(rows, ids, p, s.people[p]);
      } else if q in s0.people {
        FoldKnown(rows, ids, p, s0.people[p], r, Find(s0, r).value.1);
      } else {
        forall i | 0 <= i < n
          ensures ids[i] != p
        {
          assert ids[..n][i] in s0.people;
        }
        FoldNew(rows, ids, p, r);
      }
    }
  }
}

/** The backfill as alembic/versions/053 runs it: two loops of resolutions, then the employment links and the final
    fold. */
module PersonBackfill {
  import opened Common
  import opened PersonRegistry
  import opened BackfillRuns

  datatype Invitation = Invitation(
    id: Id, organization: Id, subjectName: string, email: Option<string>, phone: Option<string>,
    rawEmail: Option<string>, rawPhone: Option<string>, acceptedBy: Option<Id>, createdBy: Option<Id>,
    createdAt: Time, lastTouched: Time, updatedAt: Time)

  datatype Verification = Verification(
    id: Id, organization: Option<Id>, subjectUser: Option<Id>, invitation: Option<Id>, employment: Option<Id>,
    subjectName: string, email: Option<string>, rawEmail: Option<string>, requestedBy: Option<Id>,
    createdAt: Time, lastTouched: Time, updatedAt: Time)

  datatype Employment = Employment(contractual: bool, endDate: Option<Time>, updatedAt: Time)

  /** Phones of users, the employments, today's date and the current moment. */
  datatype Environment = Environment(phones: map<Id, string>, employments: map<Id, Employment>, today: Time, now: Time)

  function RelationshipFromEmployment(e: Employment, today: Time): Relationship {
    if e.endDate.Some? && e.endDate.value < today then FormerEmployee
    else if e.contractual then Contractor
    else Employee
  }

  function InvitationRequest(i: Invitation, env: Environment): Request {
    Request(i.organization, None, i.acceptedBy, i.subjectName, i.email, i.phone, i.rawEmail, i.rawPhone,
      if i.acceptedBy.Some? then Candidate
        else FutureEmployee, i.createdBy, Some(i.createdAt), Some(i.lastTouched), env.now)
  }

  function PhoneOf(env: Environment, user: Option<Id>): Option<string> {
    if user.Some? && user.value in env.phones then Some(env.phones[user.value]) else None
  }

  function VerificationRequest(v: Verification, organization: Id, env: Environment): Request {
    Request(organization, None, v.subjectUser, v.subjectName, v.email, PhoneOf(env, v.subjectUser), v.rawEmail,
      PhoneOf(env, v.subjectUser),
      if v.employment.Some? && v.employment.value in env.employments
        then RelationshipFromEmployment(env.employments[v.employment.value], env.today) else Candidate,
      v.requestedBy, Some(v.createdAt), Some(v.lastTouched), env.now)
  }

  /** Where the invitation with this id stands. */
  function IndexOf(invitations: seq<Invitation>, id: Option<Id>): (k: Option<nat>)
    ensures k.Some? ==> id.Some? && k.value < |invitations| && invitations[k.value].id == id.value
    ensures k.None? && id.Some? ==> forall i :: 0 <= i < |invitations| ==> invitations[i].id != id.value
  {
    if id.None? || invitations == [] then None
    else if invitations[|invitations| - 1].id == id.value then Some(|invitations| - 1)
    else IndexOf(invitations[..|invitations| - 1], id)
  }

  function InvitationRows(invitations: seq<Invitation>, env: Environment): seq<Row> {
    seq(|invitations|, i requires 0 <= i < |invitations| => Row(InvitationRequest(invitations[i], env), None))
  }

  /** Verification requests without an organization are passed over. */
  function VerificationRows(verifications: seq<Verification>, invitations: seq<Invitation>,
      env: Environment): seq<Row> {
    if verifications == [] then []
    else
      var v := verifications[|verifications| - 1];
      var rest := VerificationRows(verifications[..|verifications| - 1], invitations, env);
      if v.organization.None? then rest
      else rest + [Row(VerificationRequest(v, v.organization.value, env), IndexOf(invitations, v.invitation))]
  }

  function AllRows(invitations: seq<Invitation>, verifications: seq<Verification>, env: Environment): seq<Row> {
    InvitationRows(invitations, env) + VerificationRows(verifications, invitations, env)
  }

  lemma {:induction false} EarlierFailureIsFinal(rows: seq<Row>, n: nat)
    requires n <= |rows| && Run(rows[..n]).Failure?
    ensures Run(rows).Failure? && Run(rows).error == Run(rows[..n]).error
    decreases |rows|
  {
    if n < |rows| {
      assert rows[..|rows| - 1][..n] == rows[..n];
      EarlierFailureIsFinal(rows[..|rows| - 1], n);
    } else {
      assert rows[..n] == rows;
    }
  }

  /** A key stored for the email leaves the phone welcome. */
  lemma StillWelcome(s: Registry, t: Registry, r: Request, p: Id)
    requires p in s.people && RowsPointHome(s)
    requires r.phone.Some? ==> KeyWelcome(s, p, Key(r.organization, PhoneKind, r.phone.value))
    requires r.email.Some? ==> KeyWelcome(s, p, Key(r.organization, EmailKind, r.email.value))
    requires EnsureIfGiven(s, p, r.organization, EmailKind, r.email, r.rawEmail) == Success(t)
    ensures t.people == s.people
    ensures r.phone.Some? ==> KeyWelcome(t, p, Key(r.organization, PhoneKind, r.phone.value))
  {
    hide KeyWelcome, EnsureIdentifier, RowsPointHome;
    if r.email.Some? {
      EnsureEffect(s, p, Key(r.organization, EmailKind, r.email.value), r.rawEmail);
    }
    if r.phone.Some? {
      KeyStaysWelcome(s, t, p, Key(r.organization, PhoneKind, r.phone.value));
    }
  }

  class Backfill {
    var people: map<Id, Person>
    var identifiers: map<Key, Identifier>
    var next: Id

    function State(): Registry
      reads this
    {
      Registry(people, identifiers, next)
    }

    constructor ()
      ensures State() == EMPTY
    {
      people, identifiers, next := map[], map[], 0;
    }

    /** One of the two-stage lookups. */
    method LookUp(key: Key) returns (p: Option<Id>)
      ensures p.Some? ==> p.value in people
      ensures Consistent(State()) ==> p == FindByKey(State(), key)
    {
      if Consistent(State()) {
        LookupIsIdentifierTable(State(), key);
        if key in identifiers {
          assert HasIdentifier(State(), key, identifiers[key].person);
        }
      }
      p := None;
      if exists q :: q in people && HasPrimary(State(), key, q) {
        var q :| q in people && HasPrimary(State(), key, q);
        if Consistent(State()) {
          assert Indexed(State(), q, key.kind, key.value);
        }
        p := Some(q);
      } else if exists q :: q in people && HasIdentifier(State(), key, q) {
        var q :| q in people && HasIdentifier(State(), key, q);
        p := Some(q);
      }
    }

    /** Link, user, email, phone: the first that finds someone. */
    method FindPerson(r: Request) returns (found: Option<(Id, Method)>)
      ensures found.Some? ==> found.value.0 in people
      ensures Consistent(State()) ==> found == Find(State(), r)
    {
      if r.existingPerson.Some? && r.existingPerson.value in people {
        return Some((r.existingPerson.value, ExistingLink));
      }
      if r.linkedUser.Some? {
        if exists q :: q in people && IsLinked(State(), r.organization, r.linkedUser.value, q) {
          var q :| q in people && IsLinked(State(), r.organization, r.linkedUser.value, q);
          if Consistent(State()) {
            OnlyLinked(State(), r.organization, r.linkedUser.value, q);
          }
          return Some((q, LinkedUser));
        }
      }
      if r.email.Some? {
        var q := LookUp(Key(r.organization, EmailKind, r.email.value));
        if q.Some? {
          return Some((q.value, ByEmail));
        }
      }
      if r.phone.Some? {
        var q := LookUp(Key(r.organization, PhoneKind, r.phone.value));
        if q.Some? {
          return Some((q.value, ByPhone));
        }
      }
      return None;
    }

    /** `_ensure_identifier`: any row of this person for the value is refreshed; otherwise one is inserted, if the key
        is free. */
    method EnsureIdentifierRow(p: Id, key: Key, raw: Option<string>) returns (error: Option<Conflict>)
      requires p in people
      modifies this`identifiers
      ensures RowsPointHome(old(State())) && KeyWelcome(old(State()), p, key) ==>
        && RowsPointHome(State())
        && EnsureIdentifier(old(State()), p, key, raw) == if error.Some? then Failure(error.value) else Success(State())
    {
      if RowsPointHome(State()) && KeyWelcome(State(), p, key) && EnsureIdentifier(State(), p, key, raw).Success? {
        EnsureEffect(State(), p, key, raw);
      }
      if exists k :: k in identifiers && OwnRow(State(), p, key, k) {
        var k :| k in identifiers && OwnRow(State(), p, key, k);
        if RowsPointHome(State()) {
          OwnRowIsHome(State(), p, key, k);
        }
        identifiers := identifiers[k := Identifier(p, raw, true)];
        return None;
      }
      if key in identifiers {
        return Some(IdentifierTaken);
      }
      identifiers := identifiers[key := Identifier(p, raw, true)];
      return None;
    }

    /** `_resolve_person` against the two tables; a failed step leaves tables that the transaction then discards. */
    method ResolvePerson(r: Request) returns (result: Result<Id, Conflict>)
      modifies this
      ensures Consistent(old(State())) && LinkHarmless(old(State()), r) ==>
        Resolve(old(State()), r) == if result.Failure? then Failure(result.error) else Success((State(), result.value))
    {
      ghost var harmless := Consistent(State()) && LinkHarmless(State(), r);
      if harmless && WritePerson(State(), r).Success? {
        KeysWelcome(State(), r);
      }
      var found := FindPerson(r);
      var p: Id;
      if found == None {
        p := next;
        people := people[p := NewPerson(r)];
        next := next + 1;
      } else {
        p := found.value.0;
        var merged := Merged(people[p], r, found.value.1);
        if LinkClash(State(), p, merged.linkedUser) {
          return Failure(LinkedUserTaken);
        }
        people := people[p := merged];
      }
      assert harmless ==> WritePerson(old(State()), r) == Success((State(), p)) && RowsPointHome(State());
      hide WritePerson, Find, Merged, LinkClash, EnsureIdentifier, Consistent, LinkHarmless, KeyWelcome, RowsPointHome;
      ghost var written := State();
      if r.email.Some? {
        var error := EnsureIdentifierRow(p, Key(r.organization, EmailKind, r.email.value), r.rawEmail);
        if error.Some? {
          return Failure(error.value);
        }
      }
      assert harmless ==> EnsureIfGiven(written, p, r.organization, EmailKind, r.email, r.rawEmail) == Success(State());
      if harmless {
        StillWelcome(written, State(), r, p);
      }
      if r.phone.Some? {
        var error := EnsureIdentifierRow(p, Key(r.organization, PhoneKind, r.phone.value), r.rawPhone);
        if error.Some? {
          return Failure(error.value);
        }
      }
      result := Success(p);
    }

    /** The next source row of either loop. */
    method ResolveRow(ghost rows: seq<Row>, ghost n: nat, r: Request, ghost ids: seq<Id>)
      returns (result: Result<Id, Conflict>)
      requires n < |rows|
      requires LinksHarmless(rows) ==> Run(rows[..n]) == Success((State(), ids)) && r == RequestAt(rows[n], ids)
      modifies this
      ensures LinksHarmless(rows) ==>
        if result.Success? then Run(rows[..n + 1]) == Success((State(), ids + [result.value]))
          else Run(rows) == Failure(result.error)
    {
      if LinksHarmless(rows) {
        HarmlessPrefix(rows, n);
        HarmlessPrefix(rows, n + 1);
        RunIsConsistent(rows[..n], State(), ids);
        assert rows[..n + 1][..n] == rows[..n];
      }
      result := ResolvePerson(r);
      if LinksHarmless(rows) && result.Failure? {
        EarlierFailureIsFinal(rows, n + 1);
      }
    }

    /** The first loop; the ids are what is written back to the invitations. */
    method ResolveInvitations(ghost rows: seq<Row>, invitations: seq<Invitation>, env: Environment)
      returns (ids: seq<Id>, personOf: map<Id, Id>, error: Option<Conflict>)
      requires State() == EMPTY && InvitationRows(invitations, env) <= rows
      modifies this
      ensures error.None? ==> |ids| == |invitations| && InvitationsWritten(invitations, ids, personOf)
      ensures LinksHarmless(rows) ==>
        if error.None? then Run(rows[..|invitations|]) == Success((State(), ids)) else Run(rows) == Failure(error.value)
    {
      ids, personOf := [], map[];
      assert rows[..0] == [];
      for i := 0 to |invitations|
        invariant |ids| == i && InvitationsWritten(invitations[..i], ids, personOf)
        invariant LinksHarmless(rows) ==> Run(rows[..i]) == Success((State(), ids))
      {
        assert rows[i] == InvitationRows(invitations, env)[i];
        assert RequestAt(rows[i], ids) == InvitationRequest(invitations[i], env);
        var person := ResolveRow(rows, i, InvitationRequest(invitations[i], env), ids);
        if person.Failure? {
          return ids, personOf, Some(person.error);
        }
        OneMoreWritten(invitations, i, ids, personOf, person.value);
        personOf := personOf[invitations[i].id := person.value];
        ids := ids + [person.value];
      }
      assert invitations[..|invitations|] == invitations;
      error := None;
    }

    /** One turn of the second loop; a request without an organization is passed over. */
    method ResolveVerification(ghost rows: seq<Row>, invitations: seq<Invitation>, verifications: seq<Verification>,
                               env: Environment, j: nat, first: seq<Id>, personOf: map<Id, Id>, ghost ids: seq<Id>)
      returns (result: Result<Option<Id>, Conflict>)
      requires j < |verifications| && rows == AllRows(invitations, verifications, env)
      requires ResolvedTo(rows, invitations, verifications, env, j, State(), ids)
      requires InvitationsWritten(invitations, first, personOf) && first <= ids
      modifies this
      ensures result.Success? ==>
        && (result.value.Some? <==> verifications[j].organization.Some?)
        && ResolvedTo(rows, invitations, verifications, env, j + 1, State(), ids + Listed(result.value))
      ensures LinksHarmless(rows) && result.Failure? ==> Run(rows) == Failure(result.error)
    {
      hide *;
      var v := verifications[j];
      if v.organization.None? {
        PassedOver(rows, invitations, verifications, env, j, State(), ids);
        return Success(None);
      }
      var existing := if v.invitation.Some? && v.invitation.value in personOf then Some(personOf[v.invitation.value])
        else None;
      var r := VerificationRequest(v, v.organization.value, env).(existingPerson := existing);
      UpNext(rows, invitations, verifications, env, j, State(), first, ids, personOf);
      var person := ResolveRow(rows, |ids|, r, ids);
      if person.Failure? {
        return Failure(person.error);
      }
      OneMoreReached(rows, invitations, verifications, env, j, State(), ids, person.value);
      result := Success(Some(person.value));
    }

    method ResolveVerifications(ghost rows: seq<Row>, invitations: seq<Invitation>, verifications: seq<Verification>,
                                env: Environment, first: seq<Id>, personOf: map<Id, Id>)
      returns (persons: seq<Option<Id>>, error: Option<Conflict>)
      requires rows == AllRows(invitations, verifications, env) && |first| == |invitations|
      requires ResolvedTo(rows, invitations, verifications, env, 0, State(), first)
      requires InvitationsWritten(invitations, first, personOf)
      modifies this
      ensures error.None? ==> Aligned(verifications, persons)
      ensures LinksHarmless(rows) ==>
        if error.None? then Run(rows) == Success((State(), first + Compact(persons)))
          else Run(rows) == Failure(error.value)
    {
      hide Run, RequestAt, LinksHarmless, InvitationsWritten, AllRows, VerificationRows, ResolvedTo, Aligned, Compact,
        Listed;
      NoneAligned(verifications);
      persons := [];
      ghost var ids := first;
      for j := 0 to |verifications|
        invariant Aligned(verifications[..j], persons)
        invariant ids == first + Compact(persons)
        invariant ResolvedTo(rows, invitations, verifications, env, j, State(), ids)
      {
        var person := ResolveVerification(rows, invitations, verifications, env, j, first, personOf, ids);
        if person.Failure? {
          return persons, Some(person.error);
        }
        CompactGrows(persons, person.value);
        AlignedGrows(verifications, j, persons, person.value);
        persons := persons + [person.value];
        ids := ids + Listed(person.value);
      }
      assert verifications[..|verifications|] == verifications;
      if LinksHarmless(rows) {
        ReachedEnd(rows, invitations, verifications, env, State(), ids);
      }
      error := None;
    }

    /** Both loops of `upgrade`, or the first constraint that aborts the whole migration. */
    method ResolveAll(invitations: seq<Invitation>, verifications: seq<Verification>, env: Environment)
      returns (ids: seq<Id>, persons: seq<Option<Id>>, error: Option<Conflict>)
      requires State() == EMPTY
      modifies this
      ensures error.None? ==> |ids| == |invitations| && Aligned(verifications, persons)
      ensures error.Some? ==> State() == EMPTY
      ensures LinksHarmless(AllRows(invitations, verifications, env)) ==>
        Run(AllRows(invitations, verifications, env)) ==
          if error.Some? then Failure(error.value) else Success((State(), ids + Compact(persons)))
    {
      ghost var rows := AllRows(invitations, verifications, env);
      var personOf;
      ids, personOf, error := ResolveInvitations(rows, invitations, env);
      persons := [];
      if error.None? {
        assert verifications[..0] == [];
        assert ResolvedTo(rows, invitations, verifications, env, 0, State(), ids);
        persons, error := ResolveVerifications(rows, invitations, verifications, env, ids, personOf);
      }
      if error.Some? {
        people, identifiers, next := map[], map[], 0;  // the migration's transaction rolls back
      }
    }

    /** The closing loop over people: the relationship with those of the linked employments, and the latest of all that
        touched them. */
    method FinishPeople(links: Links, invitations: seq<Invitation>, verifications: seq<Verification>, env: Environment)
      requires Fits(links, invitations, verifications)
      modifies this`people
      ensures people.Keys == old(people.Keys)
      ensures forall p :: p in people ==>
        Finished(old(people[p]), people[p], RelationshipsOf(links.employments, p, env),
                 TouchesOf(links, invitations, verifications, env, p) + {env.now})
    {
      hide RelationshipsOf, TouchesOf;
      var rest := people.Keys;
      while rest != {}
        invariant rest <= people.Keys == old(people.Keys)
        invariant forall p :: p in rest ==> people[p] == old(people[p])
        invariant forall p :: p in people && p !in rest ==>
          Finished(old(people[p]), people[p], RelationshipsOf(links.employments, p, env),
                   TouchesOf(links, invitations, verifications, env, p) + {env.now})
        decreases rest
      {
        var p :| p in rest;
        var touches := TouchesOf(links, invitations, verifications, env, p) + {env.now};
        var relationship := MergeAll(people[p].relationship, RelationshipsOf(links.employments, p, env));
        assert people[p].addedAt in ActivityCandidates(people[p], touches);
        var latest := LatestOf(ActivityCandidates(people[p], touches));
        people := people[p := people[p].(relationship := relationship, lastActivity := Some(latest))];
        rest := rest - {p};
      }
    }

    /** The data part of `upgrade`: both loops, the employment links, and the closing loop. */
    method Upgrade(invitations: seq<Invitation>, verifications: seq<Verification>, env: Environment)
      returns (links: Links, error: Option<Conflict>)
      requires State() == EMPTY
      modifies this
      ensures error.Some? ==> State() == EMPTY
      ensures error.None? ==> Fits(links, invitations, verifications) && EmploymentsAgree(links, verifications)
      ensures LinksHarmless(AllRows(invitations, verifications, env)) ==>
        var run := Run(AllRows(invitations, verifications, env));
        && (error.Some? ==> run == Failure(error.value))
        && (error.None? ==>
              && run.Success? && run.value.1 == People(links)
              && Backfilled(invitations, verifications, env, links, run.value.0, State()))
    {
      var ids, persons;
      ids, persons, error := ResolveAll(invitations, verifications, env);
      links := Links(ids, persons, map[]);
      if error.Some? {
        return;
      }
      var linked := LinkEmployments(verifications, persons);
      links := Links(ids, persons, linked);
      ghost var s := State();
      FinishPeople(links, invitations, verifications, env);
      if LinksHarmless(AllRows(invitations, verifications, env)) {
        PeopleAreFinal(invitations, verifications, env, links, s, State());
      }
    }
  }

  /** Who each row was found to be about: written back to the invitations, the requests and the employments. */
  datatype Links = Links(invitations: seq<Id>, verifications: seq<Option<Id>>, employments: map<Id, Id>)

  predicate Fits(links: Links, invitations: seq<Invitation>, verifications: seq<Verification>) {
    |links.invitations| == |invitations| && Aligned(verifications, links.verifications)
  }

  /** An employment is linked exactly when all its requests led to one person. */
  ghost predicate EmploymentsAgree(links: Links, verifications: seq<Verification>)
    requires |links.verifications| == |verifications|
  {
    forall e: Id, p: Id ::
      e in links.employments && links.employments[e] == p <==>
        Only(PeopleOfEmployment(verifications, links.verifications, e), p)
  }

  /** The person of each resolved row, in the order of the rows. */
  function People(links: Links): seq<Id> {
    links.invitations + Compact(links.verifications)
  }

  /** Relationships of the employments linked to a person. */
  function RelationshipsOf(linked: map<Id, Id>, p: Id, env: Environment): set<Relationship> {
    set e | e in linked && linked[e] == p
      && e in env.employments :: RelationshipFromEmployment(env.employments[e], env.today)
  }

  /** When the rows linked to a person were last updated. */
  function TouchesOf(links: Links, invitations: seq<Invitation>, verifications: seq<Verification>, env: Environment,
      p: Id): set<Time>
    requires Fits(links, invitations, verifications)
  {
    (set i | 0 <= i < |invitations| && links.invitations[i] == p :: invitations[i].updatedAt)
    + (set j | 0 <= j < |verifications| && links.verifications[j] == Some(p) :: verifications[j].updatedAt)
    + (set e | e in links.employments && links.employments[e] == p
      && e in env.employments :: env.employments[e].updatedAt)
  }

  function ActivityCandidates(person: Person, touches: set<Time>): set<Time> {
    {person.addedAt} + touches + if person.lastActivity.Some? then {person.lastActivity.value} else {}
  }

  /** The highest relationship and the latest moment; everything else as it was. */
  ghost predicate Finished(before: Person, after: Person, relationships: set<Relationship>, touches: set<Time>) {
    && after == before.(relationship := Top(relationships + {before.relationship}), lastActivity := after.lastActivity)
    && after.lastActivity.Some? && after.lastActivity.value in ActivityCandidates(before, touches)
    && forall t :: t in ActivityCandidates(before, touches) ==> t <= after.lastActivity.value
  }

  // ----- the state `upgrade` ends in

  /** The activity the contributing rows report. */
  function Reported(rows: seq<Row>, ids: seq<Id>, p: Id): set<Time>
    requires |ids| == |rows|
  {
    set i | 0 <= i < |rows| && ids[i] == p && rows[i].request.lastActivity.Some? :: rows[i].request.lastActivity.value
  }

  ghost predicate IsMaximum(t: Time, times: set<Time>) {
    t in times && forall u :: u in times ==> u <= t
  }

  /** A person at the end: the contributions folded, the latest moment of everything about it, all else as the run left
      it. */
  ghost predicate FinalPerson(rows: seq<Row>, ids: seq<Id>, touches: set<Time>, now: Time, p: Id, before: Person,
      after: Person)
    requires |ids| == |rows|
  {
    && after == before.(lastActivity := after.lastActivity)
    && after.relationship == Top(Contributed(rows, ids, p))
    && IdentifiedBy(rows, ids, p, after)
    && IsEarliest(rows, ids, p, after.addedAt)
    && after.lastActivity.Some?
    && IsMaximum(after.lastActivity.value, Reported(rows, ids, p) + touches + {after.addedAt, now})
  }

  ghost predicate Backfilled(invitations: seq<Invitation>, verifications: seq<Verification>, env: Environment,
      links: Links, before: Registry, after: Registry)
    requires Fits(links, invitations, verifications)
  {
    var rows := AllRows(invitations, verifications, env);
    && |People(links)| == |rows|
    && after.identifiers == before.identifiers && after.next == before.next && after.people.Keys == before.people.Keys
    && forall p :: p in after.people ==>
         FinalPerson(rows, People(links), TouchesOf(links, invitations, verifications, env, p), env.now, p,
           before.people[p], after.people[p])
  }

  /** The row of a resolved request, and the person beside it. */
  lemma {:induction false} RowOfRequest(verifications: seq<Verification>, persons: seq<Option<Id>>, j: nat,
                                        invitations: seq<Invitation>, env: Environment) returns (k: nat)
    requires Aligned(verifications, persons) && j < |persons| && persons[j].Some?
    ensures k < |VerificationRows(verifications, invitations, env)| == |Compact(persons)|
    ensures Compact(persons)[k] == persons[j].value
    ensures VerificationRows(verifications, invitations, env)[k].request ==
      VerificationRequest(verifications[j], verifications[j].organization.value, env)
    decreases |persons|
  {
    var n := |persons| - 1;
    CompactLength(verifications, persons, invitations, env);
    CompactLength(verifications[..n], persons[..n], invitations, env);
    if j == n {
      k := |Compact(persons[..n])|;
    } else {
      k := RowOfRequest(verifications[..n], persons[..n], j, invitations, env);
    }
  }

  lemma {:induction false} CompactLength(verifications: seq<Verification>, persons: seq<Option<Id>>,
                                         invitations: seq<Invitation>, env: Environment)
    requires Aligned(verifications, persons)
    ensures |VerificationRows(verifications, invitations, env)| == |Compact(persons)|
    decreases |persons|
  {
    if persons != [] {
      CompactLength(verifications[..|persons| - 1], persons[..|persons| - 1], invitations, env);
    }
  }

  /** A linked employment contributes through one of its requests. */
  lemma LinkedEmploymentContributes(invitations: seq<Invitation>, verifications: seq<Verification>, env: Environment,
                                    links: Links, p: Id, e: Id)
    requires Fits(links, invitations, verifications) && EmploymentsAgree(links, verifications)
    requires e in links.employments && links.employments[e] == p && e in env.employments
    ensures |People(links)| == |AllRows(invitations, verifications, env)|
    ensures RelationshipFromEmployment(env.employments[e], env.today) in
      Contributed(AllRows(invitations, verifications, env), People(links), p)
  {
    var persons := links.verifications;
    assert Only(PeopleOfEmployment(verifications, persons, e), p);
    assert p in PeopleOfEmployment(verifications, persons, e);
    var j :| 0 <= j < |persons| && verifications[j].employment == Some(e) && persons[j].Some? && persons[j].value == p;
    CompactLength(verifications, persons, invitations, env);
    var k := RowOfRequest(verifications, persons, j, invitations, env);
    var i, rows := |invitations| + k, AllRows(invitations, verifications, env);
    assert rows[i] == VerificationRows(verifications, invitations, env)[k] && People(links)[i] == Compact(persons)[k];
    assert rows[i].request.relationship == RelationshipFromEmployment(env.employments[e], env.today);
  }

  lemma TopAbsorbs(some: set<Relationship>, all: set<Relationship>)
    requires some <= all && all != {}
    ensures Top(some + {Top(all)}) == Top(all)
  {
    var x :| x in all;
    match x case Candidate => case FutureEmployee => case Contractor => case Employee => case FormerEmployee =>
  }

  /** On the links the program produces, the merge over employments never changes a relationship:
      each linked employment was already folded in through the request that linked it. */
  lemma EmploymentsAddNothing(invitations: seq<Invitation>, verifications: seq<Verification>, env: Environment,
                              links: Links, s: Registry, p: Id)
    requires LinksHarmless(AllRows(invitations, verifications, env))
    requires Run(AllRows(invitations, verifications, env)) == Success((s, People(links)))
    requires Fits(links, invitations, verifications) && EmploymentsAgree(links, verifications) && p in s.people
    ensures Top(RelationshipsOf(links.employments, p, env) + {s.people[p].relationship}) == s.people[p].relationship
  {
    var rows := AllRows(invitations, verifications, env);
    RowsAreDated(invitations, verifications, env);
    RunFolds(rows, s, People(links));
    assert FoldedFor(rows, People(links), p, s.people[p]);
    var all := Contributed(rows, People(links), p);
    forall r | r in RelationshipsOf(links.employments, p, env)
      ensures r in all
    {
      var e :| e in links.employments && links.employments[e] == p && e in env.employments
        && RelationshipFromEmployment(env.employments[e], env.today) == r;
      LinkedEmploymentContributes(invitations, verifications, env, links, p, e);
    }
    TopAbsorbs(RelationshipsOf(links.employments, p, env), all);
  }

  lemma {:induction false} RowsAreDated(invitations: seq<Invitation>, verifications: seq<Verification>,
      env: Environment)
    ensures Dated(AllRows(invitations, verifications, env))
    ensures forall i :: 0 <= i < |AllRows(invitations, verifications, env)| ==>
      AllRows(invitations, verifications, env)[i].request.lastActivity.Some?
    decreases |verifications|
  {
    if verifications != [] {
      var front := verifications[..|verifications| - 1];
      RowsAreDated(invitations, front, env);
      var all, before := AllRows(invitations, verifications, env), AllRows(invitations, front, env);
      assert before <= all;
      forall i | 0 <= i < |all|
        ensures all[i].request.addedAt.Some? && all[i].request.lastActivity.Some?
      {
        if i < |before| {
          assert all[i] == before[i];
        }
      }
    }
  }

  /** The closing loop turns the run's people into final ones. */
  lemma PeopleAreFinal(invitations: seq<Invitation>, verifications: seq<Verification>, env: Environment, links: Links,
                       s: Registry, t: Registry)
    requires LinksHarmless(AllRows(invitations, verifications, env))
    requires Run(AllRows(invitations, verifications, env)) == Success((s, People(links)))
    requires Fits(links, invitations, verifications) && EmploymentsAgree(links, verifications)
    requires t.identifiers == s.identifiers && t.next == s.next && t.people.Keys == s.people.Keys
    requires forall p :: p in t.people ==>
      Finished(s.people[p], t.people[p], RelationshipsOf(links.employments, p, env),
               TouchesOf(links, invitations, verifications, env, p) + {env.now})
    ensures Backfilled(invitations, verifications, env, links, s, t)
  {
    var rows := AllRows(invitations, verifications, env);
    RowsAreDated(invitations, verifications, env);
    RunFolds(rows, s, People(links));
    RunIdentifies(rows, s, People(links));
    hide IdentifiedBy;
    hide Run, AllRows, LinksHarmless, EmploymentsAgree, Fits, TouchesOf, RelationshipsOf, FoldedFor, FinalPerson,
      Finished, People;
    forall p | p in t.people
      ensures FinalPerson(rows, People(links), TouchesOf(links, invitations, verifications, env, p), env.now, p,
        s.people[p], t.people[p])
    {
      EmploymentsAddNothing(invitations, verifications, env, links, s, p);
      FinishedIsFinal(rows, People(links), TouchesOf(links, invitations, verifications, env, p), env.now, p,
        s.people[p], t.people[p],
                      RelationshipsOf(links.employments, p, env));
    }
  }

  lemma FinishedIsFinal(rows: seq<Row>, ids: seq<Id>, touches: set<Time>, now: Time, p: Id, before: Person,
      after: Person, relationships: set<Relationship>)
    requires |ids| == |rows| && FoldedFor(rows, ids, p, before)
    requires forall i :: 0 <= i < |rows| ==> rows[i].request.lastActivity.Some?
    requires IdentifiedBy(rows, ids, p, before)
    requires Finished(before, after, relationships, touches + {now})
    requires Top(relationships + {before.relationship}) == before.relationship
    ensures FinalPerson(rows, ids, touches, now, p, before, after)
  {
    var candidates := ActivityCandidates(before, touches + {now});
    var all := Reported(rows, ids, p) + touches + {after.addedAt, now};
    assert before.addedAt == after.addedAt;
    if before.lastActivity.Some? {
      var i :| 0 <= i < |rows| && ids[i] == p && rows[i].request.lastActivity == before.lastActivity;
      assert before.lastActivity.value in Reported(rows, ids, p);
    }
    assert candidates <= all;
    forall u | u in all
      ensures u <= after.lastActivity.value
    {
      if u in Reported(rows, ids, p) {
        var i :| 0 <= i < |rows| && ids[i] == p && rows[i].request.lastActivity.Some?
          && rows[i].request.lastActivity.value == u;
        assert before.lastActivity.Some? && u <= before.lastActivity.value;
        assert before.lastActivity.value in candidates;
      } else {
        assert u in candidates;
      }
    }
  }

  method MergeAll(start: Relationship, relationships: set<Relationship>) returns (merged: Relationship)
    ensures merged == Top(relationships + {start})
  {
    merged := start;
    var rest := relationships;
    assert relationships - rest + {start} == {start};
    while rest != {}
      invariant rest <= relationships && merged == Top(relationships - rest + {start})
      decreases rest
    {
      var r :| r in rest;
      TopMerges(relationships - rest + {start}, r);
      assert relationships - (rest - {r}) + {start} == relationships - rest + {start} + {r};
      merged := MergeRelationship(merged, r);
      rest := rest - {r};
    }
    assert relationships - rest == relationships;
  }

  method LatestOf(times: set<Time>) returns (latest: Time)
    requires exists t :: t in times
    ensures latest in times && forall t :: t in times ==> t <= latest
  {
    latest :| latest in times;
    var rest := times;
    while exists t :: t in rest
      invariant rest <= times && latest in times
      invariant forall t :: t in times && t !in rest ==> t <= latest
      decreases rest
    {
      var t :| t in rest;
      latest := if t > latest then t else latest;
      rest := rest - {t};
    }
  }

  function PeopleOfEmployment(verifications: seq<Verification>, persons: seq<Option<Id>>, e: Id): set<Id>
    requires |persons| == |verifications|
  {
    set j | 0 <= j < |persons| && verifications[j].employment == Some(e) && persons[j].Some? :: persons[j].value
  }

  /** The dictionary from employments to the set of people their requests led to. */
  method GroupByEmployment(verifications: seq<Verification>, persons: seq<Option<Id>>)
      returns (people: map<Id, set<Id>>)
    requires |persons| == |verifications|
    ensures forall e: Id :: (if e in people then people[e] else {}) == PeopleOfEmployment(verifications, persons, e)
  {
    people := map[];
    for j := 0 to |persons|
      invariant forall e: Id ::
        (if e in people then people[e] else {}) == PeopleOfEmployment(verifications[..j], persons[..j], e)
    {
      forall e: Id
        ensures PeopleOfEmployment(verifications[..j + 1], persons[..j + 1], e) ==
          PeopleOfEmployment(verifications[..j], persons[..j], e)
            + if verifications[j].employment == Some(e) && persons[j].Some? then {persons[j].value} else {}
      {
        OneMoreEmployment(verifications, persons, j, e);
      }
      hide PeopleOfEmployment;
      if verifications[j].employment.Some? && persons[j].Some? {
        var e := verifications[j].employment.value;
        people := people[e := (if e in people then people[e] else {}) + {persons[j].value}];
      }
    }
    assert verifications[..|persons|] == verifications && persons[..|persons|] == persons;
  }

  /** Keep the employments whose set has one element. */
  method KeepSingles(people: map<Id, set<Id>>) returns (linked: map<Id, Id>)
    ensures forall e: Id :: e in linked <==> e in people && |people[e]| == 1
    ensures forall e: Id :: e in linked ==> Only(people[e], linked[e])
  {
    linked := map[];
    var rest := people.Keys;
    while rest != {}
      invariant rest <= people.Keys
      invariant forall e: Id :: e in linked <==> e in people && e !in rest && |people[e]| == 1
      invariant forall e: Id :: e in linked ==> Only(people[e], linked[e])
      decreases rest
    {
      var e :| e in rest;
      if |people[e]| == 1 {
        var p := OnlyElement(people[e]);
        linked := linked[e := p];
      }
      rest := rest - {e};
    }
  }

  /** An employment is linked to a person exactly when all its verification requests agree on that one person. */
  method LinkEmployments(verifications: seq<Verification>, persons: seq<Option<Id>>) returns (linked: map<Id, Id>)
    requires |persons| == |verifications|
    ensures forall e: Id, p: Id :: e in linked && linked[e] == p <==>
      Only(PeopleOfEmployment(verifications, persons, e), p)
  {
    var people := GroupByEmployment(verifications, persons);
    linked := KeepSingles(people);
    forall e: Id, p: Id
      ensures e in linked && linked[e] == p <==> Only(PeopleOfEmployment(verifications, persons, e), p)
    {
      OnlyIsOne(PeopleOfEmployment(verifications, persons, e), p);
    }
  }

  lemma OnlyIsOne(s: set<Id>, p: Id)
    ensures Only(s, p) ==> |s| == 1 && forall q :: Only(s, q) ==> q == p
  {
  }

  lemma OneMoreEmployment(verifications: seq<Verification>, persons: seq<Option<Id>>, j: nat, e: Id)
    requires j < |persons| == |verifications|
    ensures PeopleOfEmployment(verifications[..j + 1], persons[..j + 1], e) ==
      PeopleOfEmployment(verifications[..j], persons[..j], e)
        + if verifications[j].employment == Some(e) && persons[j].Some? then {persons[j].value} else {}
  {
    var now, before := PeopleOfEmployment(verifications[..j + 1], persons[..j + 1], e),
      PeopleOfEmployment(verifications[..j], persons[..j], e);
    forall x | x in before
      ensures x in now
    {
      var k :| 0 <= k < j && verifications[..j][k].employment == Some(e) && persons[..j][k] == Some(x);
      assert verifications[..j + 1][k].employment == Some(e) && persons[..j + 1][k] == Some(x);
    }
    if verifications[j].employment == Some(e) && persons[j].Some? {
      assert verifications[..j + 1][j].employment == Some(e) && persons[..j + 1][j].value in now;
    }
    forall x | x in now
      ensures x in before || (verifications[j].employment == Some(e) && persons[j] == Some(x))
    {
      var k :| 0 <= k < j + 1 && verifications[..j + 1][k].employment == Some(e) && persons[..j + 1][k] == Some(x);
      if k < j {
        assert verifications[..j][k].employment == Some(e) && persons[..j][k] == Some(x);
      }
    }
  }

  predicate Only(s: set<Id>, p: Id) {
    s == {p}
  }

  /** `next(iter(people))` of a one-element set. */
  method OnlyElement(s: set<Id>) returns (p: Id)
    requires |s| == 1
    ensures Only(s, p)
  {
    p :| p in s;
    assert |s - {p}| == 0;
    assert s == {p};
  }

  /** The loops have got through all invitations and the first `j` verification requests. */
  ghost predicate Reached(rows: seq<Row>, invitations: seq<Invitation>, verifications: seq<Verification>,
      env: Environment, j: nat, s: Registry, ids: seq<Id>)
    requires j <= |verifications|
  {
    && |ids| == |invitations| + |VerificationRows(verifications[..j], invitations, env)|
    && |ids| <= |rows| && Run(rows[..|ids|]) == Success((s, ids))
  }

  ghost predicate ResolvedTo(rows: seq<Row>, invitations: seq<Invitation>, verifications: seq<Verification>,
      env: Environment, j: nat, s: Registry, ids: seq<Id>)
    requires j <= |verifications|
  {
    && |ids| == |invitations| + |VerificationRows(verifications[..j], invitations, env)|
    && (LinksHarmless(rows) ==> Reached(rows, invitations, verifications, env, j, s, ids))
  }

  lemma PassedOver(rows: seq<Row>, invitations: seq<Invitation>, verifications: seq<Verification>, env: Environment,
                   j: nat, s: Registry, ids: seq<Id>)
    requires j < |verifications| && verifications[j].organization.None?
    requires ResolvedTo(rows, invitations, verifications, env, j, s, ids)
    ensures ResolvedTo(rows, invitations, verifications, env, j + 1, s, ids + Listed(None))
  {
    NextVerification(verifications, j, invitations, env);
    assert ids + Listed(None) == ids;
  }

  lemma UpNext(rows: seq<Row>, invitations: seq<Invitation>, verifications: seq<Verification>, env: Environment,
               j: nat, s: Registry, first: seq<Id>, ids: seq<Id>, personOf: map<Id, Id>)
    requires j < |verifications| && verifications[j].organization.Some?
      && rows == AllRows(invitations, verifications, env)
    requires ResolvedTo(rows, invitations, verifications, env, j, s, ids)
    requires InvitationsWritten(invitations, first, personOf) && first <= ids
    ensures |ids| == |invitations| + |VerificationRows(verifications[..j], invitations, env)| < |rows|
    ensures LinksHarmless(rows) ==> Run(rows[..|ids|]) == Success((s, ids))
    ensures var v := verifications[j];
      RequestAt(rows[|ids|], ids) == VerificationRequest(v, v.organization.value, env).(
        existingPerson := if v.invitation.Some? && v.invitation.value in personOf then
          Some(personOf[v.invitation.value]) else None)
  {
    NextVerification(verifications, j, invitations, env);
    RequestOfVerification(invitations, verifications[j], env, rows[|ids|], first, ids, personOf);
  }

  lemma OneMoreReached(rows: seq<Row>, invitations: seq<Invitation>, verifications: seq<Verification>, env: Environment,
                       j: nat, s: Registry, ids: seq<Id>, person: Id)
    requires j < |verifications| && verifications[j].organization.Some?
      && rows == AllRows(invitations, verifications, env)
    requires |ids| == |invitations| + |VerificationRows(verifications[..j], invitations, env)| < |rows|
    requires LinksHarmless(rows) ==> Run(rows[..|ids| + 1]) == Success((s, ids + [person]))
    ensures ResolvedTo(rows, invitations, verifications, env, j + 1, s, ids + Listed(Some(person)))
  {
    hide Run, LinksHarmless, AllRows, VerificationRows;
    NextVerification(verifications, j, invitations, env);
  }

  lemma ReachedEnd(rows: seq<Row>, invitations: seq<Invitation>, verifications: seq<Verification>, env: Environment,
                   s: Registry, ids: seq<Id>)
    requires rows == AllRows(invitations, verifications, env)
    requires LinksHarmless(rows) && ResolvedTo(rows, invitations, verifications, env, |verifications|, s, ids)
    ensures Run(rows) == Success((s, ids))
  {
    assert verifications[..|verifications|] == verifications && rows[..|rows|] == rows;
  }

  function Listed(person: Option<Id>): seq<Id> {
    if person.Some? then [person.value] else []
  }

  function Compact(persons: seq<Option<Id>>): seq<Id> {
    if persons == [] then [] else Compact(persons[..|persons| - 1]) + Listed(persons[|persons| - 1])
  }

  lemma CompactGrows(persons: seq<Option<Id>>, person: Option<Id>)
    ensures Compact(persons + [person]) == Compact(persons) + Listed(person)
  {
    assert (persons + [person])[..|persons|] == persons;
  }

  /** Exactly the requests with an organization have been given a person. */
  predicate Aligned(verifications: seq<Verification>, persons: seq<Option<Id>>) {
    |persons| == |verifications| && forall j :: 0 <= j < |persons| ==>
      (persons[j].Some? <==> verifications[j].organization.Some?)
  }

  lemma NoneAligned(verifications: seq<Verification>)
    ensures Aligned(verifications[..0], []) && Compact([]) == []
  {
  }

  lemma AlignedGrows(verifications: seq<Verification>, j: nat, persons: seq<Option<Id>>, person: Option<Id>)
    requires j < |verifications| && Aligned(verifications[..j], persons)
    requires person.Some? <==> verifications[j].organization.Some?
    ensures Aligned(verifications[..j + 1], persons + [person])
  {
  }

  lemma NextVerification(verifications: seq<Verification>, j: nat, invitations: seq<Invitation>, env: Environment)
    requires j < |verifications|
    ensures var v, before := verifications[j], VerificationRows(verifications[..j], invitations, env);
      && VerificationRows(verifications[..j + 1], invitations, env) ==
           (if v.organization.None? then before
            else before + [Row(VerificationRequest(v, v.organization.value, env), IndexOf(invitations, v.invitation))])
      && VerificationRows(verifications[..j + 1], invitations, env) <= VerificationRows(verifications, invitations, env)
      && (v.organization.Some? ==>
            && |invitations| + |before| < |AllRows(invitations, verifications, env)|
            && AllRows(invitations, verifications, env)[|invitations| + |before|] ==
                 Row(VerificationRequest(v, v.organization.value, env), IndexOf(invitations, v.invitation)))
  {
    RowsOfPrefix(verifications, j + 1, invitations, env);
    assert verifications[..j + 1][..j] == verifications[..j];
  }

  lemma RequestOfVerification(invitations: seq<Invitation>, v: Verification, env: Environment, row: Row,
                              first: seq<Id>, ids: seq<Id>, personOf: map<Id, Id>)
    requires v.organization.Some? && first <= ids && InvitationsWritten(invitations, first, personOf)
    requires row == Row(VerificationRequest(v, v.organization.value, env), IndexOf(invitations, v.invitation))
    ensures RequestAt(row, ids) == VerificationRequest(v, v.organization.value, env).(
      existingPerson := if v.invitation.Some? && v.invitation.value in personOf then Some(personOf[v.invitation.value])
        else None)
  {
  }

  /** The person recorded for an invitation id is that of the last invitation with this id. */
  ghost predicate InvitationsWritten(invitations: seq<Invitation>, ids: seq<Id>, written: map<Id, Id>) {
    && |invitations| <= |ids|
    && forall id ::
        && (id in written <==> IndexOf(invitations, Some(id)).Some?)
        && (id in written ==> written[id] == ids[IndexOf(invitations, Some(id)).value])
  }

  lemma OneMoreWritten(invitations: seq<Invitation>, i: nat, ids: seq<Id>, written: map<Id, Id>, person: Id)
    requires i < |invitations| && |ids| == i && InvitationsWritten(invitations[..i], ids, written)
    ensures InvitationsWritten(invitations[..i + 1], ids + [person], written[invitations[i].id := person])
  {
    assert invitations[..i + 1][..i] == invitations[..i];
  }

  lemma {:induction false} RowsOfPrefix(verifications: seq<Verification>, n: nat,
      invitations: seq<Invitation>, env: Environment)
    requires n <= |verifications|
    ensures VerificationRows(verifications[..n], invitations, env) <= VerificationRows(verifications, invitations, env)
    decreases |verifications|
  {
    if n == |verifications| {
      assert verifications[..n] == verifications;
    } else {
      var front := verifications[..|verifications| - 1];
      assert front[..n] == verifications[..n];
      RowsOfPrefix(front, n, invitations, env);
    }
  }
}
