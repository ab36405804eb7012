/** Filtering rows: what a DELETE leaves. */
module RowFilters {

  function Filter<T>(s: seq<T>, keep: T -> bool): seq<T> {
    if s == [] then [] else (if keep(s[0]) then [s[0]] else []) + Filter(s[1..], keep)
  }

  lemma {:induction false} FilterMember<T>(s: seq<T>, keep: T -> bool, x: T)
    ensures x in Filter(s, keep) <==> x in s && keep(x)
  {
    if s != [] {
      FilterMember(s[1..], keep, x);
    }
  }

  lemma {:induction false} FilterTwice<T>(s: seq<T>, p: T -> bool, q: T -> bool, both: T -> bool)
    requires forall x :: x in s ==> both(x) == (p(x) && q(x))
    ensures Filter(Filter(s, p), q) == Filter(s, both)
  {
    if s != [] {
      FilterTwice(s[1..], p, q, both);
      var rest := Filter(s[1..], p);
      if p(s[0]) {
        var kept := [s[0]] + rest;
        assert Filter(s, p) == kept && kept[1..] == rest;
        assert Filter(kept, q) == (if q(s[0]) then [s[0]] else []) + Filter(rest, q);
      } else {
        assert Filter(s, p) == rest;
        assert Filter(s, both) == Filter(s[1..], both);
      }
    }
  }

  lemma {:induction false} FilterAll<T>(s: seq<T>, p: T -> bool)
    requires forall x :: x in s ==> p(x)
    ensures Filter(s, p) == s
  {
    if s != [] {
      FilterAll(s[1..], p);
    }
  }

  lemma {:induction false} FilterSame<T>(s: seq<T>, p: T -> bool, q: T -> bool)
    requires forall x :: x in s ==> p(x) == q(x)
    ensures Filter(s, p) == Filter(s, q)
  {
    if s != [] {
      FilterSame(s[1..], p, q);
    }
  }
}

/** The user references a schema declares, and the rows they stand in (scripts/reset_test_data.py). */
module ResetSchema {
  import opened Common
  import opened RowFilters
  import opened ForeignKeys

  type Id = nat

  /** A row: its key, its email when the table has one, its organization when it has one, and its nullable
      references. */
  datatype Row = Row(id: Id, email: Option<string>, organization: Option<Id>, refs: map<string, Option<Id>>)

  type Database = map<Table, seq<Row>>

  const OWNER_COLUMNS: set<string> :=
    {"user_id", "owner_user_id", "profile_user_id", "subject_user_id", "recipient_user_id", "invitee_user_id",
     "completed_user_id", "created_by_user_id"}

  const ACTOR_COLUMNS: set<string> :=
    {"created_by_user_id", "updated_by_user_id", "deleted_by_user_id", "reviewed_by_user_id",
     "assigned_reviewer_user_id", "requested_by_user_id", "resolved_by_user_id", "verified_by_user_id",
     "submitted_by_user_id", "uploaded_by_user_id", "invited_by_user_id", "accepted_by_user_id", "added_by_user_id",
     "author_user_id", "actor_user_id", "status_changed_by_user_id", "decision_by_user_id", "assigned_by_user_id",
     "revoked_by_user_id", "merged_by_user_id", "registry_resolved_by_user_id"}

  /** The table has a foreign key to `users` in this column. */
  predicate UserReference(m: Metadata, t: Table, column: string) {
    t in m && exists c, e :: c in m[t] && e in c && e.parent == "users" && e.column == column
  }

  predicate NullableUserReference(m: Metadata, t: Table, column: string) {
    t in m && exists c, e :: c in m[t] && e in c && e.parent == "users" && e.column == column && e.nullable
  }

  /** Columns that make a row belong to a user; membership rows belong through `user_id` alone. */
  predicate OwnerColumn(m: Metadata, t: Table, column: string) {
    && UserReference(m, t, column)
    && if t == "organization_members" then column == "user_id" else column in OWNER_COLUMNS
  }

  /** Columns that only record who acted, and can be emptied. */
  predicate ActorColumn(m: Metadata, t: Table, column: string) {
    NullableUserReference(m, t, column) && column in ACTOR_COLUMNS && column !in OWNER_COLUMNS
  }

  predicate Names(row: Row, column: string, users: set<Id>) {
    column in row.refs && row.refs[column].Some? && row.refs[column].value in users
  }

  /** Some owner column of the row names a selected user. */
  predicate OwnedBy(m: Metadata, t: Table, row: Row, users: set<Id>) {
    exists column :: column in row.refs && OwnerColumn(m, t, column) && Names(row, column, users)
  }

  /** The row with the given columns emptied where they name a selected user. */
  function Detached(row: Row, columns: set<string>, users: set<Id>): Row {
    row.(refs := map c | c in row.refs :: if c in columns && Names(row, c, users) then None else row.refs[c])
  }

  function ActorColumns(m: Metadata, t: Table, row: Row): set<string> {
    set c | c in row.refs && ActorColumn(m, t, c)
  }

  predicate EmailIn(row: Row, emails: set<string>) {
    row.email.Some? && row.email.value in emails
  }

  function SelectedUsers(db: Database, emails: set<string>): set<Id>
    requires "users" in db
  {
    set row | row in db["users"] && EmailIn(row, emails) :: row.id
  }

  /** The reset removes this row. */
  predicate Doomed(m: Metadata, users: set<Id>, organizations: seq<Id>, emails: set<string>, t: Table, row: Row) {
    || (t == "organizations" && row.id in organizations)
    || OwnedBy(m, t, row, users)
    || (t == "pending_signups" && EmailIn(row, emails))
    || (t == "users" && row.id in users)
  }

  /** No reference to a selected user is left where the reset looks for one. */
  predicate Clean(m: Metadata, users: set<Id>, t: Table, row: Row) {
    && !OwnedBy(m, t, row, users)
    && forall c :: c in row.refs && ActorColumn(m, t, c) ==> !Names(row, c, users)
  }

  /** Exactly the rows not doomed survive, changed only in the actor columns that named a selected user. */
  ghost predicate ResetOutcome(m: Metadata, users: set<Id>, organizations: seq<Id>, emails: set<string>,
      before: Database, after: Database)
  {
    && after.Keys == before.Keys
    && forall t :: t in before ==> after[t] == Survivors(m, users, organizations, emails, t, before[t])
  }

  function Survivors(m: Metadata, users: set<Id>, organizations: seq<Id>, emails: set<string>, t: Table,
      rows: seq<Row>): seq<Row>
  {
    Filter(DetachedRows(m, t, rows, users), (row: Row) => !Doomed(m, users, organizations, emails, t, row))
  }

  function DetachedRows(m: Metadata, t: Table, rows: seq<Row>, users: set<Id>): seq<Row> {
    seq(|rows|, i requires 0 <= i < |rows| => Detached(rows[i], ActorColumns(m, t, rows[i]), users))
  }

  /** Emptying actor columns changes nothing a later pass looks at. */
  lemma DetachingKeepsFate(m: Metadata, users: set<Id>, organizations: seq<Id>, emails: set<string>, t: Table, row: Row)
    ensures var d := Detached(row, ActorColumns(m, t, row), users);
      && OwnedBy(m, t, d, users) == OwnedBy(m, t, row, users)
      && Doomed(m, users, organizations, emails, t, d) == Doomed(m, users, organizations, emails, t, row)
  {
    var d := Detached(row, ActorColumns(m, t, row), users);
    forall c | c in row.refs && OwnerColumn(m, t, c)
      ensures Names(d, c, users) == Names(row, c, users)
    {
      assert c in OWNER_COLUMNS;
      assert c !in ActorColumns(m, t, row);
    }
    assert d.refs.Keys == row.refs.Keys;
  }

  /** `row` is what a row that is not doomed becomes. */
  ghost predicate SurvivesAs(m: Metadata, users: set<Id>, organizations: seq<Id>, emails: set<string>,
      t: Table, row0: Row, row: Row)
  {
    && !Doomed(m, users, organizations, emails, t, row0)
    && row == Detached(row0, ActorColumns(m, t, row0), users)
  }

  /** Row by row: a row is in the result exactly when it is the cleaned form of a row that was not doomed. */
  lemma SurvivorsExactly(m: Metadata, users: set<Id>, organizations: seq<Id>, emails: set<string>,
                         before: Database, after: Database, t: Table, row: Row)
    requires ResetOutcome(m, users, organizations, emails, before, after) && t in before
    ensures row in after[t] <==>
      exists row0 :: row0 in before[t] && SurvivesAs(m, users, organizations, emails, t, row0, row)
  {
    var rows := DetachedRows(m, t, before[t], users);
    FilterMember(rows, r => !Doomed(m, users, organizations, emails, t, r), row);
    if row in after[t] {
      var i :| 0 <= i < |rows| && rows[i] == row;
      DetachingKeepsFate(m, users, organizations, emails, t, before[t][i]);
      assert SurvivesAs(m, users, organizations, emails, t, before[t][i], row);
    }
    if exists row0 :: row0 in before[t] && SurvivesAs(m, users, organizations, emails, t, row0, row) {
      var row0 :| row0 in before[t] && SurvivesAs(m, users, organizations, emails, t, row0, row);
      var i :| 0 <= i < |before[t]| && before[t][i] == row0;
      assert rows[i] == row && row in rows;
      DetachingKeepsFate(m, users, organizations, emails, t, row0);
    }
  }

  /** The selected users are those whose email is in the list. */
  lemma SelectedExactly(db: Database, emails: set<string>, id: Id)
    requires "users" in db
    ensures id in SelectedUsers(db, emails) <==>
      exists row :: row in db["users"] && row.id == id && row.email.Some? && row.email.value in emails
  {
    if row :| row in db["users"] && row.id == id && row.email.Some? && row.email.value in emails {
      assert EmailIn(row, emails);
    }
  }

  /** A row names a selected user in this column, which refers to users. */
  predicate Points(m: Metadata, t: Table, row: Row, column: string, users: set<Id>) {
    && UserReference(m, t, column)
    && column in row.refs && row.refs[column].Some? && row.refs[column].value in users
  }

  /** Which rows go. A membership goes with its member and with nobody else, whoever created it; a user with its key; a
      signup with its email or with an owner; an organization if it is one of those to delete or with an owner; any
      other row with an owner. */
  lemma RowsGoExactly(m: Metadata, users: set<Id>, organizations: seq<Id>, emails: set<string>, t: Table, row: Row)
    ensures var owned := exists c :: c in OWNER_COLUMNS && Points(m, t, row, c, users);
      Doomed(m, users, organizations, emails, t, row) <==>
        match t
        case "organization_members" => Points(m, t, row, "user_id", users)
        case "users" => owned || row.id in users
        case "pending_signups" => owned || (row.email.Some? && row.email.value in emails)
        case "organizations" => owned || row.id in organizations
        case _ => owned
  {
    if c :| c in OWNER_COLUMNS && Points(m, t, row, c, users) && t != "organization_members" {
      assert OwnerColumn(m, t, c) && Names(row, c, users);
    }
    if t == "organization_members" && Points(m, t, row, "user_id", users) {
      assert OwnerColumn(m, t, "user_id") && Names(row, "user_id", users);
    }
    if OwnedBy(m, t, row, users) {
      var c :| c in row.refs && OwnerColumn(m, t, c) && Names(row, c, users);
      assert Points(m, t, row, c, users);
    }
  }

  /** What is left of a row that stays: a reference is emptied exactly when it is a nullable one to a selected user in a
      column that only records who acted. */
  lemma CellsAreEmptiedExactly(m: Metadata, users: set<Id>, t: Table, row: Row, column: string)
    requires column in row.refs
    ensures var after := Detached(row, ActorColumns(m, t, row), users);
      && after.id == row.id && after.email == row.email && after.organization == row.organization
      && after.refs.Keys == row.refs.Keys
      && after.refs[column] ==
           if NullableUserReference(m, t, column) && column in ACTOR_COLUMNS && column !in OWNER_COLUMNS
              && row.refs[column].Some? && row.refs[column].value in users
           then None else row.refs[column]
  {
  }

  /** After a reset nothing anywhere names a selected user as owner or as a nullable actor. */
  lemma NothingNamesSelected(m: Metadata, users: set<Id>, organizations: seq<Id>, emails: set<string>,
                             before: Database, after: Database)
    requires ResetOutcome(m, users, organizations, emails, before, after)
    ensures forall t, row :: t in after && row in after[t] ==> Clean(m, users, t, row)
    ensures "users" in after ==> forall row :: row in after["users"] ==> row.id !in users
    ensures "pending_signups" in after ==> forall row :: row in after["pending_signups"] ==> !EmailIn(row, emails)
  {
    forall t, row | t in after && row in after[t]
      ensures Clean(m, users, t, row) && !Doomed(m, users, organizations, emails, t, row)
    {
      SurvivorsExactly(m, users, organizations, emails, before, after, t, row);
      var row0 :| row0 in before[t] && SurvivesAs(m, users, organizations, emails, t, row0, row);
      DetachingKeepsFate(m, users, organizations, emails, t, row0);
      assert row.refs.Keys == row0.refs.Keys;
    }
  }

  /** A second reset of the same emails finds no users, so it stops before changing anything. */
  lemma SecondResetFindsNobody(m: Metadata, organizations: seq<Id>, emails: set<string>, before: Database,
      after: Database)
    requires "users" in before
    requires ResetOutcome(m, SelectedUsers(before, emails), organizations, emails, before, after)
    ensures SelectedUsers(after, emails) == {}
  {
    var users := SelectedUsers(before, emails);
    forall row | row in after["users"]
      ensures !EmailIn(row, emails)
    {
      SurvivorsExactly(m, users, organizations, emails, before, after, "users", row);
      var row0 :| row0 in before["users"] && SurvivesAs(m, users, organizations, emails, "users", row0, row);
      assert row0.id !in users && row.email == row0.email;
      assert EmailIn(row0, emails) ==> row0.id in users;
    }
  }
}

/** `reset_users` of scripts/reset_test_data.py, run in one transaction; database cascades are left out. */
module ResetTool {
  import opened Common
  import opened RowFilters
  import opened ForeignKeys
  import opened ResetSchema
  import opened DeleteOrder

  datatype Refusal = HasAnotherMember(organization: Id) | HasNoMember(organization: Id) | UsersNotAllDeleted

  /** The tables the tool names outright exist, and users have distinct keys. */
  ghost predicate WellFormed(m: Metadata, db: Database) {
    && db.Keys == m.Keys
    && {"users", "organizations", "organization_members", "pending_signups"} <= m.Keys
    && forall i, j :: 0 <= i < j < |db["users"]| ==> db["users"][i].id != db["users"][j].id
  }

  predicate MemberOf(row: Row, organization: Id) {
    row.organization == Some(organization)
  }

  /** A member that is not one of the selected users. */
  predicate OtherMember(row: Row, organization: Id, users: set<Id>) {
    MemberOf(row, organization) && "user_id" in row.refs && row.refs["user_id"].Some?
      && row.refs["user_id"].value !in users
  }

  predicate CreatedBySelected(row: Row, users: set<Id>) {
    Names(row, "created_by_user_id", users)
  }

  /** Only selected users belong to the organization, and at least one membership row exists. */
  ghost predicate SoleMembers(members: seq<Row>, organization: Id, users: set<Id>) {
    && (exists row :: row in members && MemberOf(row, organization))
    && forall row :: row in members ==> !OtherMember(row, organization, users)
  }

  /** The refusal names an organization a selected user created, and says truly what is wrong with it. */
  ghost predicate Justified(db: Database, users: set<Id>, refusal: Refusal)
    requires "organizations" in db && "organization_members" in db
  {
    var members := db["organization_members"];
    match refusal
    case HasAnotherMember(id) => CreatedId(db, users, id) && exists row :: row in members && OtherMember(row, id, users)
    case HasNoMember(id) => CreatedId(db, users, id) && forall row :: row in members ==> !MemberOf(row, id)
    case UsersNotAllDeleted => false
  }

  ghost predicate CreatedId(db: Database, users: set<Id>, id: Id)
    requires "organizations" in db
  {
    exists o :: o in db["organizations"] && CreatedBySelected(o, users) && o.id == id
  }

  /** What the organization check returns when it does not refuse. */
  ghost predicate OwnedExclusively(db: Database, users: set<Id>, ids: seq<Id>)
    requires "organizations" in db && "organization_members" in db
  {
    && (forall id :: id in ids <==> users != {} && CreatedId(db, users, id))
    && (forall id :: id in ids ==> SoleMembers(db["organization_members"], id, users))
  }

  /** The reference in this column of the row, if it has one. */
  predicate RefersTo(row: Row, column: string, id: Id) {
    column in row.refs && row.refs[column] == Some(id)
  }

  /** What the check establishes: the organizations found are those that a selected user created; each has a membership
      row, and every member it has is selected. A refusal names one with no membership row, or with a member who is
      not. */
  lemma OwnershipMeans(db: Database, users: set<Id>, ids: seq<Id>, refusal: Refusal, id: Id)
    requires "organizations" in db && "organization_members" in db
    ensures OwnedExclusively(db, users, ids) ==>
      && (id in ids <==>
            exists o, u :: o in db["organizations"] && o.id == id && u in users && RefersTo(o, "created_by_user_id", u))
      && (id in ids ==>
            && (exists row :: row in db["organization_members"] && row.organization == Some(id))
            && forall row, u ::
                 row in db["organization_members"] && row.organization == Some(id) && RefersTo(row, "user_id", u) ==>
                 u in users)
    ensures Justified(db, users, refusal) ==>
      && (refusal.HasAnotherMember? || refusal.HasNoMember?)
      && (exists o, u :: o in db["organizations"] && o.id == refusal.organization && u in users
            && RefersTo(o, "created_by_user_id", u))
      && (refusal.HasNoMember? ==>
            forall row :: row in db["organization_members"] ==> row.organization != Some(refusal.organization))
      && (refusal.HasAnotherMember? ==>
            exists row, u :: row in db["organization_members"] && row.organization == Some(refusal.organization)
              && RefersTo(row, "user_id", u) && u !in users)
  {
    CreatedMeans(db, users, id);
    if Justified(db, users, refusal) {
      CreatedMeans(db, users, refusal.organization);
      if refusal.HasAnotherMember? {
        var row :| row in db["organization_members"] && OtherMember(row, refusal.organization, users);
        assert RefersTo(row, "user_id", row.refs["user_id"].value);
      }
    }
    if OwnedExclusively(db, users, ids) && id in ids {
      forall row, u | row in db["organization_members"] && row.organization == Some(id) && RefersTo(row, "user_id", u)
        ensures u in users
      {
        assert !OtherMember(row, id, users);
      }
    }
  }

  lemma CreatedMeans(db: Database, users: set<Id>, id: Id)
    requires "organizations" in db
    ensures CreatedId(db, users, id) <==>
      exists o, u :: o in db["organizations"] && o.id == id && u in users && RefersTo(o, "created_by_user_id", u)
  {
    if CreatedId(db, users, id) {
      var o :| o in db["organizations"] && CreatedBySelected(o, users) && o.id == id;
      assert RefersTo(o, "created_by_user_id", o.refs["created_by_user_id"].value);
    }
    if o, u :| o in db["organizations"] && o.id == id && u in users && RefersTo(o, "created_by_user_id", u) {
      assert CreatedBySelected(o, users);
    }
  }

  /** `_owned_organization_ids`: the organizations created by selected users, or a refusal naming one of them. */
  method OwnedOrganizations(db: Database, users: set<Id>) returns (r: Result<seq<Id>, Refusal>)
    requires "organizations" in db && "organization_members" in db
    ensures r.Success? ==> OwnedExclusively(db, users, r.value)
    ensures r.Failure? ==> users != {} && Justified(db, users, r.error)
  {
    var organizations, members := db["organizations"], db["organization_members"];
    var ids := [];
    if users == {} {
      return Success([]);
    }
    for i := 0 to |organizations|
      invariant forall id :: id in ids <==>
        exists k :: 0 <= k < i && CreatedBySelected(organizations[k], users) && organizations[k].id == id
      invariant forall id :: id in ids ==> SoleMembers(members, id, users)
    {
      var o := organizations[i];
      if CreatedBySelected(o, users) {
        if exists row :: row in members && OtherMember(row, o.id, users) {
          return Failure(HasAnotherMember(o.id));
        }
        if !exists row :: row in members && MemberOf(row, o.id) {
          return Failure(HasNoMember(o.id));
        }
        ids := ids + [o.id];
      }
    }
    return Success(ids);
  }

  /** `_owned_user_tables`: tables with owner columns, and which those are. */
  method OwnedUserTables(m: Metadata) returns (owned: map<Table, set<string>>)
    ensures forall t :: t in owned <==> exists c :: OwnerColumn(m, t, c)
    ensures forall t, c :: t in owned ==> (c in owned[t] <==> OwnerColumn(m, t, c))
  {
    owned := map[];
    var rest := m.Keys;
    while rest != {}
      invariant rest <= m.Keys && owned.Keys <= m.Keys
      invariant forall t :: t in m && t !in rest ==> (t in owned <==> exists c :: OwnerColumn(m, t, c))
      invariant forall t :: t in rest ==> t !in owned
      invariant forall t, c :: t in owned ==> (c in owned[t] <==> OwnerColumn(m, t, c))
      decreases rest
    {
      var t :| t in rest;
      var columns := set c, e | c in m[t] && e in c && OwnerColumn(m, t, e.column) :: e.column;
      forall name
        ensures name in columns <==> OwnerColumn(m, t, name)
      {
        if OwnerColumn(m, t, name) {
          var c, e :| c in m[t] && e in c && e.parent == "users" && e.column == name;
          assert e.column in columns;
        }
      }
      if columns != {} {
        owned := owned[t := columns];
      }
      rest := rest - {t};
    }
  }

  /** `_actor_updates`: the nullable actor columns of every table. */
  method ActorUpdates(m: Metadata) returns (updates: seq<(Table, string)>)
    ensures forall t, c :: (t, c) in updates <==> ActorColumn(m, t, c)
    ensures forall u :: u in updates ==> u.0 in m
  {
    updates := [];
    var rest := m.Keys;
    while rest != {}
      invariant rest <= m.Keys
      invariant forall t, c :: (t, c) in updates <==> t in m && t !in rest && ActorColumn(m, t, c)
      invariant forall u :: u in updates ==> u.0 in m
      decreases rest
    {
      var t :| t in rest;
      var added := ActorUpdatesOf(m, t);
      updates := updates + added;
      rest := rest - {t};
    }
  }

  method ActorUpdatesOf(m: Metadata, t: Table) returns (updates: seq<(Table, string)>)
    requires t in m
    ensures forall u, c :: (u, c) in updates <==> u == t && ActorColumn(m, t, c)
  {
    updates := [];
    for i := 0 to |m[t]|
      invariant forall u, c :: (u, c) in updates ==> u == t && ActorColumn(m, t, c)
      invariant forall k, e :: 0 <= k < i && e in m[t][k] && IsActorElement(e) ==> (t, e.column) in updates
    {
      for j := 0 to |m[t][i]|
        invariant forall u, c :: (u, c) in updates ==> u == t && ActorColumn(m, t, c)
        invariant forall k, e :: 0 <= k < i && e in m[t][k] && IsActorElement(e) ==> (t, e.column) in updates
        invariant forall l :: 0 <= l < j && IsActorElement(m[t][i][l]) ==> (t, m[t][i][l].column) in updates
      {
        var e := m[t][i][j];
        if IsActorElement(e) {
          assert m[t][i] in m[t] && e in m[t][i];
          updates := updates + [(t, e.column)];
        }
      }
    }
  }

  predicate IsActorElement(e: Element) {
    e.parent == "users" && e.column in ACTOR_COLUMNS && e.column !in OWNER_COLUMNS && e.nullable
  }

  function Selected(rows: seq<Row>, users: set<Id>): seq<Row> {
    Filter(rows, (row: Row) => row.id in users)
  }

  /** A database after a pass that rewrites every table by `f`. */
  ghost predicate Pass(before: Database, after: Database, f: (Table, seq<Row>) -> seq<Row>) {
    after.Keys == before.Keys && forall t :: t in before ==> after[t] == f(t, before[t])
  }

  function WithoutOrganizations(organizations: seq<Id>, t: Table, rows: seq<Row>): seq<Row> {
    Filter(rows, (row: Row) => !(t == "organizations" && row.id in organizations))
  }

  function WithoutOwned(m: Metadata, users: set<Id>, t: Table, rows: seq<Row>): seq<Row> {
    Filter(rows, (row: Row) => !OwnedBy(m, t, row, users))
  }

  function WithoutPending(emails: set<string>, t: Table, rows: seq<Row>): seq<Row> {
    Filter(rows, (row: Row) => !(t == "pending_signups" && EmailIn(row, emails)))
  }

  function WithoutUsers(users: set<Id>, t: Table, rows: seq<Row>): seq<Row> {
    Filter(rows, (row: Row) => !(t == "users" && row.id in users))
  }

  method DeleteOrganizations(before: Database, organizations: seq<Id>) returns (after: Database)
    requires "organizations" in before
    ensures Pass(before, after, (t, rows) => WithoutOrganizations(organizations, t, rows))
  {
    after := before["organizations" := WithoutOrganizations(organizations, "organizations", before["organizations"])];
    forall t | t in before && t != "organizations"
      ensures WithoutOrganizations(organizations, t, before[t]) == before[t]
    {
      FilterAll(before[t], (row: Row) => !(t == "organizations" && row.id in organizations));
    }
  }

  method DeletePending(before: Database, emails: set<string>) returns (after: Database)
    requires "pending_signups" in before
    ensures Pass(before, after, (t, rows) => WithoutPending(emails, t, rows))
  {
    after := before["pending_signups" := WithoutPending(emails, "pending_signups", before["pending_signups"])];
    forall t | t in before && t != "pending_signups"
      ensures WithoutPending(emails, t, before[t]) == before[t]
    {
      FilterAll(before[t], (row: Row) => !(t == "pending_signups" && EmailIn(row, emails)));
    }
  }

  method DeleteUsers(before: Database, users: set<Id>) returns (after: Database, count: nat)
    requires "users" in before
    ensures Pass(before, after, (t, rows) => WithoutUsers(users, t, rows))
    ensures count == |Selected(before["users"], users)|
  {
    after := before["users" := WithoutUsers(users, "users", before["users"])];
    count := |Selected(before["users"], users)|;
    forall t | t in before && t != "users"
      ensures WithoutUsers(users, t, before[t]) == before[t]
    {
      FilterAll(before[t], (row: Row) => !(t == "users" && row.id in users));
    }
  }

  /** One UPDATE per actor column: the columns done so far are the ones emptied. */
  method DetachActors(m: Metadata, before: Database, users: set<Id>) returns (after: Database)
    requires before.Keys == m.Keys
    ensures Pass(before, after, (t, rows) => DetachedRows(m, t, rows, users))
  {
    var updates := ActorUpdates(m);
    after := before;
    forall t | t in before
      ensures after[t] == DetachColumns(before[t], Done(updates, 0, t), users)
    {
      assert Done(updates, 0, t) == {};
      forall i | 0 <= i < |before[t]|
        ensures before[t][i] == Detached(before[t][i], {}, users)
      {
        assert before[t][i].refs == Detached(before[t][i], {}, users).refs;
      }
    }
    for i := 0 to |updates|
      invariant after.Keys == before.Keys
      invariant forall t :: t in before ==> after[t] == DetachColumns(before[t], Done(updates, i, t), users)
    {
      var (t, c) := updates[i];
      ghost var earlier := after;
      after := after[t := DetachColumns(after[t], {c}, users)];
      DetachOneMore(before[t], Done(updates, i, t), c, users);
      assert Done(updates, i + 1, t) == Done(updates, i, t) + {c};
      forall u | u in before && u != t
        ensures Done(updates, i + 1, u) == Done(updates, i, u)
      {}
    }
    forall t | t in before
      ensures after[t] == DetachedRows(m, t, before[t], users)
    {
      DetachedByAll(m, t, before[t], Done(updates, |updates|, t), users);
    }
  }

  function Done(updates: seq<(Table, string)>, i: nat, t: Table): set<string>
    requires i <= |updates|
  {
    set k | 0 <= k < i && updates[k].0 == t :: updates[k].1
  }

  function DetachColumns(rows: seq<Row>, columns: set<string>, users: set<Id>): seq<Row> {
    seq(|rows|, i requires 0 <= i < |rows| => Detached(rows[i], columns, users))
  }

  lemma DetachOneMore(rows: seq<Row>, columns: set<string>, c: string, users: set<Id>)
    ensures DetachColumns(DetachColumns(rows, columns, users), {c}, users) == DetachColumns(rows, columns + {c}, users)
  {
    forall i | 0 <= i < |rows|
      ensures Detached(Detached(rows[i], columns, users), {c}, users) == Detached(rows[i], columns + {c}, users)
    {
      assert Detached(Detached(rows[i], columns, users), {c}, users).refs ==
        Detached(rows[i], columns + {c}, users).refs;
    }
  }

  lemma DetachedByAll(m: Metadata, t: Table, rows: seq<Row>, columns: set<string>, users: set<Id>)
    requires forall c :: c in columns <==> ActorColumn(m, t, c)
    ensures DetachColumns(rows, columns, users) == DetachedRows(m, t, rows, users)
  {
    forall i | 0 <= i < |rows|
      ensures Detached(rows[i], columns, users) == Detached(rows[i], ActorColumns(m, t, rows[i]), users)
    {
      assert Detached(rows[i], columns, users).refs == Detached(rows[i], ActorColumns(m, t, rows[i]), users).refs;
    }
  }

  /** The owned tables emptied in delete order. */
  method DeleteOwnedRows(m: Metadata, before: Database, users: set<Id>) returns (after: Database)
    requires before.Keys == m.Keys
    ensures Pass(before, after, (t, rows) => WithoutOwned(m, users, t, rows))
  {
    var owned := OwnedUserTables(m);
    OwnedTablesKnown(m, owned.Keys);
    var ordered := OwnedDeleteOrder(m, owned.Keys);
    NothingEmptied(m, before, users, owned.Keys);
    after := DeleteInOrder(m, before, owned, ordered, users);
  }

  /** Each table comes up once, still as it was before the deletes. */
  method DeleteInOrder(m: Metadata, before: Database, owned: map<Table, set<string>>, ordered: seq<Table>,
      users: set<Id>)
    returns (after: Database)
    requires owned.Keys <= before.Keys
    requires NoRepeats(ordered) && forall t :: t in ordered <==> t in owned
    requires forall t, c :: t in owned ==> (c in owned[t] <==> OwnerColumn(m, t, c))
    requires Emptied(m, before, before, users, owned.Keys)
    ensures after.Keys == before.Keys && Emptied(m, before, after, users, {})
  {
    hide Emptied, DeleteNaming, WithoutOwned;
    after := before;
    ghost var todo := owned.Keys;
    for i := 0 to |ordered|
      invariant after.Keys == before.Keys
      invariant forall t :: t in todo <==> t in ordered[i..]
      invariant Emptied(m, before, after, users, todo)
    {
      var t := ordered[i];
      assert ordered[i..] == [t] + ordered[i + 1..];
      assert t in ordered && t in todo;
      EmptiedOneMore(m, before, after, users, todo, t, owned[t]);
      after := after[t := DeleteNaming(after[t], owned[t], users)];
      todo := todo - {t};
      assert t !in ordered[i + 1..];
    }
    assert todo == {};
  }

  /** The tables to do are as they were; every other has lost exactly its owned rows. */
  ghost predicate Emptied(m: Metadata, before: Database, after: Database, users: set<Id>, todo: set<Table>)
    requires before.Keys == after.Keys
  {
    forall t :: t in before ==> after[t] == if t in todo then before[t] else WithoutOwned(m, users, t, before[t])
  }

  lemma EmptiedOneMore(m: Metadata, before: Database, after: Database, users: set<Id>, todo: set<Table>, t: Table,
      columns: set<string>)
    requires before.Keys == after.Keys && Emptied(m, before, after, users, todo) && t in todo && t in before
    requires forall c :: c in columns <==> OwnerColumn(m, t, c)
    ensures Emptied(m, before, after[t := DeleteNaming(after[t], columns, users)], users, todo - {t})
  {
    OwnedRowsGo(m, t, before[t], columns, users);
    hide OwnerColumn, DeleteNaming, WithoutOwned;
  }

  lemma NothingEmptied(m: Metadata, before: Database, users: set<Id>, owned: set<Table>)
    requires forall t :: t in owned <==> exists c :: OwnerColumn(m, t, c)
    ensures Emptied(m, before, before, users, owned)
  {
    forall t | t in before && t !in owned
      ensures before[t] == WithoutOwned(m, users, t, before[t])
    {
      FilterAll(before[t], (row: Row) => !OwnedBy(m, t, row, users));
    }
  }

  lemma OwnedTablesKnown(m: Metadata, owned: set<Table>)
    requires forall t :: t in owned <==> exists c :: OwnerColumn(m, t, c)
    ensures owned <= m.Keys
  {
    forall t | t in owned
      ensures t in m
    {
      var c :| OwnerColumn(m, t, c);
    }
  }

  /** DELETE ... WHERE any of the columns names a selected user. */
  function DeleteNaming(rows: seq<Row>, columns: set<string>, users: set<Id>): seq<Row> {
    Filter(rows, (row: Row) => !exists c :: c in columns && Names(row, c, users))
  }

  lemma OwnedRowsGo(m: Metadata, t: Table, rows: seq<Row>, columns: set<string>, users: set<Id>)
    requires forall c :: c in columns <==> OwnerColumn(m, t, c)
    ensures DeleteNaming(rows, columns, users) == WithoutOwned(m, users, t, rows)
  {
    FilterSame(rows, (row: Row) => !exists c :: c in columns && Names(row, c, users),
      (row: Row) => !OwnedBy(m, t, row, users));
  }

  /** The five passes in the tool's order. */
  function FivePasses(m: Metadata, users: set<Id>, organizations: seq<Id>, emails: set<string>,
      t: Table, rows: seq<Row>): seq<Row>
  {
    WithoutUsers(users, t, WithoutPending(emails, t, WithoutOwned(m, users, t,
      DetachedRows(m, t, WithoutOrganizations(organizations, t, rows), users))))
  }

  lemma {:induction false} DetachCommutes(m: Metadata, users: set<Id>, organizations: seq<Id>, t: Table, rows: seq<Row>)
    ensures DetachedRows(m, t, WithoutOrganizations(organizations, t, rows), users)
         == WithoutOrganizations(organizations, t, DetachedRows(m, t, rows, users))
  {
    if rows != [] {
      DetachCommutes(m, users, organizations, t, rows[1..]);
      var detached := DetachedRows(m, t, rows, users);
      assert detached[1..] == DetachedRows(m, t, rows[1..], users);
      var first := if !(t == "organizations" && rows[0].id in organizations) then [rows[0]] else [];
      var kept := WithoutOrganizations(organizations, t, rows[1..]);
      assert DetachedRows(m, t, first + kept, users) ==
        DetachedRows(m, t, first, users) + DetachedRows(m, t, kept, users);
    }
  }

  /** The passes, run one after the other, leave exactly the rows that are not doomed, detached. */
  lemma PassesGiveSurvivors(m: Metadata, users: set<Id>, organizations: seq<Id>, emails: set<string>,
      t: Table, rows: seq<Row>)
    ensures FivePasses(m, users, organizations, emails, t, rows) == Survivors(m, users, organizations, emails, t, rows)
  {
    var d := DetachedRows(m, t, rows, users);
    DetachCommutes(m, users, organizations, t, rows);
    var p1 := (row: Row) => !(t == "organizations" && row.id in organizations);
    var p2 := (row: Row) => !OwnedBy(m, t, row, users);
    var p3 := (row: Row) => !(t == "pending_signups" && EmailIn(row, emails));
    var p4 := (row: Row) => !(t == "users" && row.id in users);
    var p12 := (row: Row) => p1(row) && p2(row);
    var p123 := (row: Row) => p12(row) && p3(row);
    FilterTwice(d, p1, p2, p12);
    FilterTwice(d, p12, p3, p123);
    FilterTwice(d, p123, p4, (row: Row) => !Doomed(m, users, organizations, emails, t, row));
  }

  /** Filtering twice keeps as many as filtering once exactly when the first filter loses none of them. */
  lemma {:induction false} CountAfterFilter(rows: seq<Row>, keep: Row -> bool, users: set<Id>)
    ensures |Selected(Filter(rows, keep), users)| <= |Selected(rows, users)|
    ensures |Selected(Filter(rows, keep), users)| == |Selected(rows, users)| <==>
      forall row :: row in rows && row.id in users ==> keep(row)
  {
    if rows != [] {
      CountAfterFilter(rows[1..], keep, users);
      var rest := Filter(rows[1..], keep);
      if keep(rows[0]) {
        assert ([rows[0]] + rest)[1..] == rest && Filter(rows, keep) == [rows[0]] + rest;
      } else {
        assert Filter(rows, keep) == rest;
      }
      assert forall row :: row in rows <==> row == rows[0] || row in rows[1..];
    }
  }

  lemma {:induction false} CountAfterDetach(m: Metadata, t: Table, rows: seq<Row>, users: set<Id>)
    ensures |Selected(DetachedRows(m, t, rows, users), users)| == |Selected(rows, users)|
  {
    if rows != [] {
      CountAfterDetach(m, t, rows[1..], users);
      assert DetachedRows(m, t, rows, users)[1..] == DetachedRows(m, t, rows[1..], users);
    }
  }

  /** Among rows with distinct keys, the rows found by email are the rows found by the keys of those rows. */
  lemma SelectedByEmail(db: Database, emails: set<string>)
    requires "users" in db
    requires forall i, j :: 0 <= i < j < |db["users"]| ==> db["users"][i].id != db["users"][j].id
    ensures Filter(db["users"], (row: Row) => EmailIn(row, emails)) == Selected(db["users"], SelectedUsers(db, emails))
  {
    var rows, users := db["users"], SelectedUsers(db, emails);
    forall row | row in rows
      ensures EmailIn(row, emails) == (row.id in users)
    {
      if row.id in users {
        var other :| other in rows && EmailIn(other, emails) && other.id == row.id;
        var i :| 0 <= i < |rows| && rows[i] == row;
        var j :| 0 <= j < |rows| && rows[j] == other;
        assert i == j;
      }
    }
    FilterSame(rows, (row: Row) => EmailIn(row, emails), (row: Row) => row.id in users);
  }

  /** No selected user's own row is lost to the owner-column deletes. */
  ghost predicate UsersOutliveOwnedDeletes(m: Metadata, rows: seq<Row>, users: set<Id>) {
    forall row :: row in rows && row.id in users ==> !OwnedBy(m, "users", row, users)
  }

  /** The rows still there for the last delete, counted. */
  lemma UsersLeftToDelete(m: Metadata, users: set<Id>, organizations: seq<Id>, emails: set<string>, rows: seq<Row>)
    ensures var left := WithoutPending(emails, "users", WithoutOwned(m, users, "users",
        DetachedRows(m, "users", WithoutOrganizations(organizations, "users", rows), users)));
      |Selected(left, users)| == |Selected(rows, users)| <==> UsersOutliveOwnedDeletes(m, rows, users)
  {
    var d := DetachedRows(m, "users", rows, users);
    var notOwned := (row: Row) => !OwnedBy(m, "users", row, users);
    var notPending := (row: Row) => !("users" == "pending_signups" && EmailIn(row, emails));
    FilterAll(rows, (row: Row) => !("users" == "organizations" && row.id in organizations));
    FilterAll(Filter(d, notOwned), notPending);
    CountAfterFilter(d, notOwned, users);
    CountAfterDetach(m, "users", rows, users);
    forall row | row in d && row.id in users && UsersOutliveOwnedDeletes(m, rows, users)
      ensures notOwned(row)
    {
      var i :| 0 <= i < |d| && d[i] == row;
      DetachingKeepsFate(m, users, organizations, emails, "users", rows[i]);
    }
    if forall row :: row in d && row.id in users ==> notOwned(row) {
      forall row | row in rows && row.id in users
        ensures !OwnedBy(m, "users", row, users)
      {
        var i :| 0 <= i < |rows| && rows[i] == row;
        DetachingKeepsFate(m, users, organizations, emails, "users", row);
        assert d[i] in d;
      }
    }
  }

  class ResetSession {
    const metadata: Metadata
    var db: Database

    constructor (metadata: Metadata, db: Database)
      ensures this.metadata == metadata && this.db == db
    {
      this.metadata, this.db := metadata, db;
    }

    /** Deletes everything the selected users own, or changes nothing. Returns how many users went. */
    method ResetUsers(emails: set<string>) returns (r: Result<nat, Refusal>, ghost organizations: seq<Id>)
      requires WellFormed(metadata, db)
      modifies this
      ensures r.Failure? || SelectedUsers(old(db), emails) == {} ==> db == old(db)
      ensures SelectedUsers(old(db), emails) == {} ==> r == Success(0)
      ensures SelectedUsers(old(db), emails) != {} && r.Success? ==>
        && OwnedExclusively(old(db), SelectedUsers(old(db), emails), organizations)
        && ResetOutcome(metadata, SelectedUsers(old(db), emails), organizations, emails, old(db), db)
        && r.value == |Selected(old(db)["users"], SelectedUsers(old(db), emails))|
        && UsersOutliveOwnedDeletes(metadata, old(db)["users"], SelectedUsers(old(db), emails))
      ensures r.Failure? ==>
        if r.error.UsersNotAllDeleted?
        then !UsersOutliveOwnedDeletes(metadata, old(db)["users"], SelectedUsers(old(db), emails))
        else Justified(old(db), SelectedUsers(old(db), emails), r.error)
    {
      var found := Filter(db["users"], (row: Row) => EmailIn(row, emails));
      var users := SelectedUsers(db, emails);
      SelectedByEmail(db, emails);
      organizations := [];
      if found == [] {
        NobodyFound(db, emails);
        return Success(0), [];
      }
      SomebodyFound(db, emails);
      var owned := OwnedOrganizations(db, users);
      if owned.Failure? {
        return Failure(owned.error), [];
      }
      organizations := owned.value;
      var d1 := DeleteOrganizations(db, owned.value);
      var d2 := DetachActors(metadata, d1, users);
      var d3 := DeleteOwnedRows(metadata, d2, users);
      var d4 := DeletePending(d3, emails);
      var d5, count := DeleteUsers(d4, users);
      UsersLeftToDelete(metadata, users, owned.value, emails, db["users"]);
      if count != |found| {
        return Failure(UsersNotAllDeleted), organizations;
      }
      forall t | t in db
        ensures d5[t] == Survivors(metadata, users, organizations, emails, t, db[t])
      {
        PassesGiveSurvivors(metadata, users, organizations, emails, t, db[t]);
      }
      db := d5;
      r := Success(count);
    }
  }

  lemma NobodyFound(db: Database, emails: set<string>)
    requires "users" in db && Filter(db["users"], (row: Row) => EmailIn(row, emails)) == []
    ensures SelectedUsers(db, emails) == {}
  {
    forall row | row in db["users"]
      ensures !EmailIn(row, emails)
    {
      FilterMember(db["users"], (r: Row) => EmailIn(r, emails), row);
    }
  }

  lemma SomebodyFound(db: Database, emails: set<string>)
    requires "users" in db && Filter(db["users"], (row: Row) => EmailIn(row, emails)) != []
    ensures SelectedUsers(db, emails) != {}
  {
    var row := Filter(db["users"], (r: Row) => EmailIn(r, emails))[0];
    FilterMember(db["users"], (r: Row) => EmailIn(r, emails), row);
    assert row.id in SelectedUsers(db, emails);
  }
}
