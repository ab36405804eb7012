/** Resolving people by link, user, email, then phone (alembic/versions/053), as transitions of two tables. */
module PersonRegistry {
  import opened Common

  type Id = nat
  type Time = int

  datatype Relationship = Candidate | FutureEmployee | Contractor | Employee | FormerEmployee

  datatype Kind = EmailKind | PhoneKind

  datatype Method = Created | ExistingLink | LinkedUser | ByEmail | ByPhone

  datatype Person = Person(
    organization: Id, linkedUser: Option<Id>, fullName: string, primaryEmail: Option<string>,
    primaryPhone: Option<string>, relationship: Relationship, addedBy: Option<Id>, addedAt: Time,
    lastActivity: Option<Time>, resolvedBy: Method)

  /** The unique key of an identifier row. */
  datatype Key = Key(organization: Id, kind: Kind, value: string)

  datatype Identifier = Identifier(person: Id, raw: Option<string>, primary: bool)

  /** The two tables; the identifier table is keyed by its unique constraint. Fresh ids come from a counter. */
  datatype Registry = Registry(people: map<Id, Person>, identifiers: map<Key, Identifier>, next: Id)

  const EMPTY := Registry(map[], map[], 0)

  /** The arguments of one resolution; `email` and `phone` are already normalised. */
  datatype Request = Request(
    organization: Id, existingPerson: Option<Id>, linkedUser: Option<Id>, fullName: string,
    email: Option<string>, phone: Option<string>, rawEmail: Option<string>, rawPhone: Option<string>,
    relationship: Relationship, addedBy: Option<Id>, addedAt: Option<Time>, lastActivity: Option<Time>, now: Time)

  /** A uniqueness constraint stopped the step. */
  datatype Conflict = LinkedUserTaken | IdentifierTaken

  function Priority(r: Relationship): nat {
    match r
    case Candidate => 1
    case FutureEmployee => 2
    case Contractor => 3
    case Employee => 4
    case FormerEmployee => 5
  }

  function MergeRelationship(current: Relationship, incoming: Relationship): Relationship {
    if Priority(incoming) >= Priority(current) then incoming else current
  }

  // ----- the queries

  predicate IsLinked(s: Registry, organization: Id, user: Id, p: Id) {
    p in s.people && s.people[p].organization == organization && s.people[p].linkedUser == Some(user)
  }

  function Primary(person: Person, kind: Kind): Option<string> {
    if kind == EmailKind then person.primaryEmail else person.primaryPhone
  }

  predicate HasPrimary(s: Registry, key: Key, p: Id) {
    p in s.people && s.people[p].organization == key.organization && Primary(s.people[p], key.kind) == Some(key.value)
  }

  predicate HasIdentifier(s: Registry, key: Key, p: Id) {
    key in s.identifiers && s.identifiers[key].person == p && p in s.people
      && s.people[p].organization == key.organization
  }

  /** The column first, the identifier table second. */
  ghost function FindByKey(s: Registry, key: Key): Option<Id> {
    if exists p :: HasPrimary(s, key, p) then var p :| HasPrimary(s, key, p); Some(p)
    else if exists p :: HasIdentifier(s, key, p) then var p :| HasIdentifier(s, key, p); Some(p)
    else None
  }

  ghost function FindLinked(s: Registry, organization: Id, user: Id): Option<Id> {
    if exists p :: IsLinked(s, organization, user, p) then var p :| IsLinked(s, organization, user, p);
      Some(p) else None
  }

  ghost function FindBy(s: Registry, organization: Id, kind: Kind, value: Option<string>): Option<Id> {
    if value.None? then None else FindByKey(s, Key(organization, kind, value.value))
  }

  /** Who the request is about, and how that was found out. */
  ghost function Find(s: Registry, r: Request): Option<(Id, Method)> {
    if r.existingPerson.Some? && r.existingPerson.value in s.people then Some((r.existingPerson.value, ExistingLink))
    else if r.linkedUser.Some? && FindLinked(s, r.organization, r.linkedUser.value).Some? then
      Some((FindLinked(s, r.organization, r.linkedUser.value).value, LinkedUser))
    else if FindBy(s, r.organization, EmailKind, r.email).Some? then
      Some((FindBy(s, r.organization, EmailKind, r.email).value, ByEmail))
    else if FindBy(s, r.organization, PhoneKind, r.phone).Some? then
      Some((FindBy(s, r.organization, PhoneKind, r.phone).value, ByPhone))
    else None
  }

  // ----- the updates

  function OrElse<T>(x: Option<T>, y: Option<T>): Option<T> {
    if x.Some? then x else y
  }

  function NewPerson(r: Request): Person {
    Person(r.organization, r.linkedUser, r.fullName, r.email, r.phone, r.relationship, r.addedBy,
      if r.addedAt.Some? then r.addedAt.value else r.now, r.lastActivity, Created)
  }

  function Later(x: Option<Time>, y: Option<Time>): Option<Time> {
    if x.Some? && y.Some? then Some(if y.value > x.value then y.value else x.value) else OrElse(x, y)
  }

  function Merged(person: Person, r: Request, resolvedBy: Method): Person {
    person.(linkedUser := OrElse(person.linkedUser, r.linkedUser),
            fullName := if r.fullName != "" then r.fullName else person.fullName,
            primaryEmail := OrElse(person.primaryEmail, r.email),
            primaryPhone := OrElse(person.primaryPhone, r.phone),
            relationship := MergeRelationship(person.relationship, r.relationship),
            addedBy := OrElse(person.addedBy, r.addedBy),
            addedAt := if r.addedAt.Some? && r.addedAt.value < person.addedAt then r.addedAt.value else person.addedAt,
            lastActivity := Later(person.lastActivity, r.lastActivity),
            resolvedBy := resolvedBy)
  }

  /** Another person of the organization already holds the user the merge would link. */
  predicate LinkClash(s: Registry, p: Id, user: Option<Id>)
    requires p in s.people
  {
    user.Some? && exists q :: q in s.people && q != p && IsLinked(s, s.people[p].organization, user.value, q)
  }

  ghost function WritePerson(s: Registry, r: Request): Result<(Registry, Id), Conflict> {
    match Find(s, r)
    case None => Success((s.(people := s.people[s.next := NewPerson(r)], next := s.next + 1), s.next))
    case Some((p, how)) =>
      var merged := Merged(s.people[p], r, how);
      if LinkClash(s, p, merged.linkedUser) then Failure(LinkedUserTaken)
      else Success((s.(people := s.people[p := merged]), p))
  }

  /** `_ensure_identifier`: the person's own row is refreshed; otherwise a row is inserted, if the key is free. */
  ghost function EnsureIdentifier(s: Registry, p: Id, key: Key, raw: Option<string>): Result<Registry, Conflict> {
    if exists k :: OwnRow(s, p, key, k) then
      var k :| OwnRow(s, p, key, k);
      Success(s.(identifiers := s.identifiers[k := Identifier(p, raw, true)]))
    else if key in s.identifiers then Failure(IdentifierTaken)
    else Success(s.(identifiers := s.identifiers[key := Identifier(p, raw, true)]))
  }

  /** A row of this person with this type and value, in whatever organization. */
  predicate OwnRow(s: Registry, p: Id, key: Key, k: Key) {
    k in s.identifiers && s.identifiers[k].person == p && k.kind == key.kind && k.value == key.value
  }

  ghost function EnsureIfGiven(s: Registry, p: Id, organization: Id, kind: Kind, value: Option<string>,
      raw: Option<string>): Result<Registry, Conflict>
  {
    if value.None? then Success(s) else EnsureIdentifier(s, p, Key(organization, kind, value.value), raw)
  }

  /** `_resolve_person`: the new tables and the person, or the constraint that stopped it. */
  ghost function Resolve(s: Registry, r: Request): Result<(Registry, Id), Conflict> {
    var written := WritePerson(s, r);
    if written.Failure? then Failure(written.error)
    else
      var (s1, p) := written.value;
      var s2 := EnsureIfGiven(s1, p, r.organization, EmailKind, r.email, r.rawEmail);
      if s2.Failure? then Failure(s2.error)
      else
        var s3 := EnsureIfGiven(s2.value, p, r.organization, PhoneKind, r.phone, r.rawPhone);
        if s3.Failure? then Failure(s3.error) else Success((s3.value, p))
  }

  // ----- what every committed step keeps

  /** Identifier rows point at people of their own organization. */
  ghost predicate RowsPointHome(s: Registry) {
    forall k :: k in s.identifiers ==>
      s.identifiers[k].person in s.people && s.people[s.identifiers[k].person].organization == k.organization
  }

  /** Each primary email or phone of a person is also an identifier row of that person. */
  ghost predicate PrimariesIndexed(s: Registry) {
    forall p, kind :: p in s.people && Primary(s.people[p], kind).Some? ==>
      Indexed(s, p, kind, Primary(s.people[p], kind).value)
  }

  ghost predicate Indexed(s: Registry, p: Id, kind: Kind, value: string)
    requires p in s.people
  {
    HasIdentifier(s, Key(s.people[p].organization, kind, value), p)
  }

  ghost predicate LinksUnique(s: Registry) {
    forall p, q :: p in s.people && q in s.people && p != q && s.people[p].linkedUser.Some?
      && s.people[p].organization == s.people[q].organization
      ==> s.people[p].linkedUser != s.people[q].linkedUser
  }

  ghost predicate Consistent(s: Registry) {
    && RowsPointHome(s) && PrimariesIndexed(s) && LinksUnique(s)
    && forall p :: p in s.people ==> p < s.next
  }

  /** The person a request names directly belongs to the request's organization. */
  predicate SameOrganization(s: Registry, r: Request) {
    r.existingPerson.Some? && r.existingPerson.value in s.people ==>
      s.people[r.existingPerson.value].organization == r.organization
  }

  /** The identifier table alone. */
  function IdentifierOwner(s: Registry, key: Key): Option<Id> {
    if key in s.identifiers then Some(s.identifiers[key].person) else None
  }

  /** The two-stage lookup finds exactly what the identifier table alone would. */
  lemma LookupIsIdentifierTable(s: Registry, key: Key)
    requires Consistent(s)
    ensures FindByKey(s, key) == IdentifierOwner(s, key)
  {
    forall p | HasPrimary(s, key, p)
      ensures HasIdentifier(s, key, p)
    {
      assert Indexed(s, p, key.kind, key.value);
    }
    if key in s.identifiers {
      assert HasIdentifier(s, key, s.identifiers[key].person);
    }
  }

  /** No two people of one organization share a primary email or phone. */
  lemma PrimariesUnique(s: Registry, p: Id, q: Id, kind: Kind)
    requires Consistent(s) && p in s.people && q in s.people && s.people[p].organization == s.people[q].organization
    requires Primary(s.people[p], kind).Some? && Primary(s.people[p], kind) == Primary(s.people[q], kind)
    ensures p == q
  {
    assert Indexed(s, p, kind, Primary(s.people[p], kind).value);
    assert Indexed(s, q, kind, Primary(s.people[q], kind).value);
  }

  /** The key as the person's own organization has it. */
  function HomeKey(s: Registry, p: Id, key: Key): Key
    requires p in s.people
  {
    key.(organization := s.people[p].organization)
  }

  /** The key is of the person's own organization, or one the person already has a row for. */
  ghost predicate KeyWelcome(s: Registry, p: Id, key: Key)
    requires p in s.people
  {
    s.people[p].organization == key.organization || exists k :: OwnRow(s, p, key, k)
  }

  /** Where rows point home, a person's row for a value is the one of the person's own organization. */
  lemma OwnRowIsHome(s: Registry, p: Id, key: Key, k: Key)
    requires RowsPointHome(s) && p in s.people && OwnRow(s, p, key, k)
    ensures k == HomeKey(s, p, key)
  {
  }

  /** What one successful identifier step does, in a registry whose rows point home. */
  lemma EnsureEffect(s: Registry, p: Id, key: Key, raw: Option<string>)
    requires RowsPointHome(s) && p in s.people && KeyWelcome(s, p, key)
    requires EnsureIdentifier(s, p, key, raw).Success?
    ensures var home := HomeKey(s, p, key);
      && EnsureIdentifier(s, p, key, raw).value == s.(identifiers := s.identifiers[home := Identifier(p, raw, true)])
      && (home in s.identifiers ==> s.identifiers[home].person == p)
    ensures RowsPointHome(EnsureIdentifier(s, p, key, raw).value)
  {
    var home := HomeKey(s, p, key);
    if home in s.identifiers && s.identifiers[home].person == p {
      assert OwnRow(s, p, key, home);
    }
    if exists k :: OwnRow(s, p, key, k) {
      forall k | OwnRow(s, p, key, k)
        ensures k == home
      {
        OwnRowIsHome(s, p, key, k);
      }
    }
  }

  // ----- one step, spelled out

  function WithKey(ids: map<Key, Identifier>, p: Id, organization: Id, kind: Kind,
      value: Option<string>, raw: Option<string>): map<Key, Identifier>
  {
    if value.None? then ids else ids[Key(organization, kind, value.value) := Identifier(p, raw, true)]
  }

  /** If the key is taken at all, it is taken by `p`. */
  predicate FreeFor(ids: map<Key, Identifier>, p: Id, organization: Id, kind: Kind, value: Option<string>) {
    value.Some? && Key(organization, kind, value.value) in ids ==> ids[Key(organization, kind, value.value)].person == p
  }

  /** The organization whose keys a step about `p` stores: the person's own, or the request's for a new person. */
  function Home(s: Registry, r: Request, p: Id): Id {
    if p in s.people then s.people[p].organization else r.organization
  }

  /** Everything a committed step did: one person written, the given keys now that person's, nothing else touched. */
  ghost predicate StepEffect(s: Registry, r: Request, s': Registry, p: Id) {
    && (if p in s.people then
          && (s.people[p].organization == r.organization || r.existingPerson == Some(p))
          && Find(s, r).Some? && Find(s, r).value.0 == p
          && s'.people == s.people[p := Merged(s.people[p], r, Find(s, r).value.1)]
          && !LinkClash(s, p, s'.people[p].linkedUser)
          && s'.next == s.next
        else
          && Find(s, r).None? && p == s.next
          && s'.people == s.people[p := NewPerson(r)]
          && s'.next == s.next + 1)
    && FreeFor(s.identifiers, p, Home(s, r, p), EmailKind, r.email)
    && FreeFor(s.identifiers, p, Home(s, r, p), PhoneKind, r.phone)
    && s'.identifiers == WithKey(WithKey(s.identifiers, p, Home(s, r, p), EmailKind, r.email, r.rawEmail),
                                 p, Home(s, r, p), PhoneKind, r.phone, r.rawPhone)
  }

  /** The given value is one the person already has an identifier row for. */
  ghost predicate HasRowFor(s: Registry, p: Id, organization: Id, kind: Kind, value: Option<string>) {
    value.Some? ==> exists k :: OwnRow(s, p, Key(organization, kind, value.value), k)
  }

  /** A link stays in the request's organization, or the request brings no email or phone that is new to the person. */
  ghost predicate LinkHarmless(s: Registry, r: Request) {
    || SameOrganization(s, r)
    || (HasRowFor(s, r.existingPerson.value, r.organization, EmailKind, r.email)
        && HasRowFor(s, r.existingPerson.value, r.organization, PhoneKind, r.phone))
  }

  /** Whoever is found without a link is of the request's organization. */
  lemma FoundInOrganization(s: Registry, r: Request)
    requires Consistent(s) && Find(s, r).Some?
    ensures var p := Find(s, r).value.0;
      p in s.people && (s.people[p].organization == r.organization || r.existingPerson == Some(p))
  {
    if r.email.Some? {
      LookupIsIdentifierTable(s, Key(r.organization, EmailKind, r.email.value));
    }
    if r.phone.Some? {
      LookupIsIdentifierTable(s, Key(r.organization, PhoneKind, r.phone.value));
    }
  }

  /** The keys of a harmless request are welcome to the person written, and stay so while one of them is stored. */
  lemma KeysWelcome(s: Registry, r: Request)
    requires Consistent(s) && LinkHarmless(s, r) && WritePerson(s, r).Success?
    ensures var (s1, p) := WritePerson(s, r).value;
      && p in s1.people && s1.people[p].organization == Home(s, r, p) && RowsPointHome(s1)
      && s1.identifiers == s.identifiers
      && (p in s.people ==> s.people[p].organization == r.organization || r.existingPerson == Some(p))
      && (r.email.Some? ==> KeyWelcome(s1, p, Key(r.organization, EmailKind, r.email.value)))
      && (r.phone.Some? ==> KeyWelcome(s1, p, Key(r.organization, PhoneKind, r.phone.value)))
  {
    if Find(s, r).Some? {
      FoundInOrganization(s, r);
    }
    hide Find, Later, MergeRelationship, LinksUnique, PrimariesIndexed;
    var (s1, p) := WritePerson(s, r).value;
    if p in s.people && s.people[p].organization != r.organization {
      OwnRowStays(s, s1, p, r.organization, EmailKind, r.email);
      OwnRowStays(s, s1, p, r.organization, PhoneKind, r.phone);
    }
  }

  lemma OwnRowStays(s: Registry, t: Registry, p: Id, organization: Id, kind: Kind, value: Option<string>)
    requires HasRowFor(s, p, organization, kind, value)
    requires forall k :: k in s.identifiers ==> k in t.identifiers && t.identifiers[k].person == s.identifiers[k].person
    ensures HasRowFor(t, p, organization, kind, value)
  {
    if value.Some? {
      var key := Key(organization, kind, value.value);
      var k :| OwnRow(s, p, key, k);
      assert OwnRow(t, p, key, k);
    }
  }

  lemma KeyStaysWelcome(s: Registry, t: Registry, p: Id, key: Key)
    requires p in s.people && KeyWelcome(s, p, key) && t.people == s.people
    requires forall k :: k in s.identifiers ==> k in t.identifiers && t.identifiers[k].person == s.identifiers[k].person
    ensures KeyWelcome(t, p, key)
  {
    if k :| OwnRow(s, p, key, k) {
      assert OwnRow(t, p, key, k);
    }
  }

  /** Storing the welcome keys of a request writes exactly the rows of the person's own organization. */
  lemma KeysStored(s: Registry, r: Request, p: Id)
    requires RowsPointHome(s) && p in s.people
    requires r.email.Some? ==> KeyWelcome(s, p, Key(r.organization, EmailKind, r.email.value))
    requires r.phone.Some? ==> KeyWelcome(s, p, Key(r.organization, PhoneKind, r.phone.value))
    requires EnsureIfGiven(s, p, r.organization, EmailKind, r.email, r.rawEmail).Success?
    requires var t := EnsureIfGiven(s, p, r.organization, EmailKind, r.email, r.rawEmail).value;
      EnsureIfGiven(t, p, r.organization, PhoneKind, r.phone, r.rawPhone).Success?
    ensures var t, home := EnsureIfGiven(s, p, r.organization, EmailKind, r.email, r.rawEmail).value,
      s.people[p].organization;
      && FreeFor(s.identifiers, p, home, EmailKind, r.email) && FreeFor(s.identifiers, p, home, PhoneKind, r.phone)
      && EnsureIfGiven(t, p, r.organization, PhoneKind, r.phone, r.rawPhone).value ==
           s.(identifiers := WithKey(WithKey(s.identifiers, p, home, EmailKind, r.email, r.rawEmail),
                                     p, home, PhoneKind, r.phone, r.rawPhone))
  {
    hide KeyWelcome, EnsureIdentifier, RowsPointHome;
    if r.email.Some? {
      EnsureEffect(s, p, Key(r.organization, EmailKind, r.email.value), r.rawEmail);
    }
    var t := EnsureIfGiven(s, p, r.organization, EmailKind, r.email, r.rawEmail).value;
    if r.phone.Some? {
      KeyStaysWelcome(s, t, p, Key(r.organization, PhoneKind, r.phone.value));
      EnsureEffect(t, p, Key(r.organization, PhoneKind, r.phone.value), r.rawPhone);
    }
  }

  lemma ResolveHasEffect(s: Registry, r: Request)
    requires Consistent(s) && LinkHarmless(s, r) && Resolve(s, r).Success?
    ensures StepEffect(s, r, Resolve(s, r).value.0, Resolve(s, r).value.1)
  {
    KeysWelcome(s, r);
    hide Consistent, LinkHarmless, KeyWelcome, EnsureIfGiven, RowsPointHome, WithKey, FreeFor, Merged, NewPerson, Find;
    var (s1, p) := WritePerson(s, r).value;
    KeysStored(s1, r, p);
  }

  /** What was there stays, what was missing is filled in from the request. */
  predicate FilledIn<T(==)>(before: Option<T>, given: Option<T>, after: Option<T>) {
    (before.Some? ==> after == before) && (before.None? ==> after == given)
  }

  /** The earlier or later of two times, where given. */
  predicate IsMin(t: Time, x: Time, y: Option<Time>) {
    t <= x && (y.Some? ==> t <= y.value) && (t == x || y == Some(t))
  }

  predicate IsMax(t: Option<Time>, x: Option<Time>, y: Option<Time>) {
    && (x.Some? ==> t.Some? && x.value <= t.value) && (y.Some? ==> t.Some? && y.value <= t.value)
    && (t == x || t == y)
  }

  /** Each column of a person that a request was found to be about, before and after. */
  predicate Updated(before: Person, r: Request, how: Method, after: Person) {
    && after.organization == before.organization && after.resolvedBy == how
    && FilledIn(before.linkedUser, r.linkedUser, after.linkedUser)
    && FilledIn(before.primaryEmail, r.email, after.primaryEmail)
    && FilledIn(before.primaryPhone, r.phone, after.primaryPhone)
    && FilledIn(before.addedBy, r.addedBy, after.addedBy)
    && (if r.fullName == "" then after.fullName == before.fullName else after.fullName == r.fullName)
    && after.relationship in {before.relationship, r.relationship}
    && Priority(before.relationship) <= Priority(after.relationship)
    && Priority(r.relationship) <= Priority(after.relationship)
    && IsMin(after.addedAt, before.addedAt, r.addedAt) && IsMax(after.lastActivity, before.lastActivity, r.lastActivity)
  }

  /** Each column of a new person. */
  predicate Introduced(r: Request, after: Person) {
    && after.organization == r.organization && after.resolvedBy == Created && after.fullName == r.fullName
    && after.linkedUser == r.linkedUser && after.primaryEmail == r.email && after.primaryPhone == r.phone
    && after.relationship == r.relationship && after.addedBy == r.addedBy && after.lastActivity == r.lastActivity
    && after.addedAt == (if r.addedAt.Some? then r.addedAt.value else r.now)
  }

  /** A committed step fills in what the person lacks, keeps what it has, raises what is ranked, and names how the
      person was found; where nobody was found, it introduces the person the request describes. */
  lemma ResolveFillsIn(s: Registry, r: Request)
    requires Consistent(s) && LinkHarmless(s, r) && Resolve(s, r).Success?
    ensures var (s', p) := Resolve(s, r).value;
      p in s'.people
      && if p in s.people then Find(s, r).Some? && Updated(s.people[p], r, Find(s, r).value.1, s'.people[p])
         else Find(s, r).None? && Introduced(r, s'.people[p])
  {
    ResolveHasEffect(s, r);
    hide Find, Resolve, LinkClash, FreeFor, WithKey, Consistent, LinkHarmless;
  }

  lemma StepKeepsConsistent(s: Registry, r: Request, s': Registry, p: Id)
    requires Consistent(s) && StepEffect(s, r, s', p)
    ensures Consistent(s')
  {
    hide Find, LinkClash, MergeRelationship, Later;
    assert RowsPointHome(s');
    PrimariesStayIndexed(s, r, s', p);
    LinksStayUnique(s, r, s', p);
  }

  lemma PrimariesStayIndexed(s: Registry, r: Request, s': Registry, p: Id)
    requires Consistent(s) && StepEffect(s, r, s', p) && RowsPointHome(s')
    ensures PrimariesIndexed(s')
  {
    hide Find, LinkClash, MergeRelationship, Later, LinksUnique;
    forall q, kind | q in s'.people && Primary(s'.people[q], kind).Some?
      ensures Indexed(s', q, kind, Primary(s'.people[q], kind).value)
    {
      var given := if kind == EmailKind then r.email else r.phone;
      if q in s.people && Primary(s.people[q], kind).Some? {
        var value := Primary(s.people[q], kind).value;
        assert Indexed(s, q, kind, value) && Primary(s'.people[q], kind) == Some(value);
        assert s'.people[q].organization == s.people[q].organization;
      } else {
        assert q == p && Primary(s'.people[q], kind) == given;
        assert Key(Home(s, r, p), kind, given.value) in s'.identifiers;
      }
    }
  }

  lemma LinksStayUnique(s: Registry, r: Request, s': Registry, p: Id)
    requires Consistent(s) && StepEffect(s, r, s', p)
    ensures LinksUnique(s')
  {
    if p !in s.people && r.linkedUser.Some? {
      assert FindLinked(s, r.organization, r.linkedUser.value).None?;
      assert forall q :: !IsLinked(s, r.organization, r.linkedUser.value, q);
    }
    forall q | q in s.people && q != p && s'.people[p].linkedUser.Some?
      && s.people[q].organization == s'.people[p].organization
      ensures s.people[q].linkedUser != s'.people[p].linkedUser
    {
      assert !IsLinked(s, s'.people[p].organization, s'.people[p].linkedUser.value, q);
    }
  }

  /** Every committed step of a harmless request keeps the two tables in agreement. */
  lemma ResolveKeepsConsistent(s: Registry, r: Request)
    requires Consistent(s) && LinkHarmless(s, r) && Resolve(s, r).Success?
    ensures Consistent(Resolve(s, r).value.0)
  {
    ResolveHasEffect(s, r);
    StepKeepsConsistent(s, r, Resolve(s, r).value.0, Resolve(s, r).value.1);
  }

  // ----- whom a request finds, and when it cannot be resolved

  /** The person of the organization that this user is linked to. */
  ghost predicate LinkedTo(s: Registry, organization: Id, user: Option<Id>, p: Id) {
    user.Some? && p in s.people && s.people[p].organization == organization && s.people[p].linkedUser == user
  }

  /** The person that this email or phone is an identifier of. */
  predicate IdentifiedAs(s: Registry, organization: Id, kind: Kind, value: Option<string>, p: Id) {
    value.Some? && IdentifierOwner(s, Key(organization, kind, value.value)) == Some(p)
  }

  /** A link decides, then the user, then the email, then the phone; each only if the ones before find nobody. */
  lemma FindsInOrder(s: Registry, r: Request, p: Id)
    requires Consistent(s)
    ensures var direct := r.existingPerson.Some? && r.existingPerson.value in s.people;
      var byUser := exists q :: LinkedTo(s, r.organization, r.linkedUser, q);
      var byEmail := exists q :: IdentifiedAs(s, r.organization, EmailKind, r.email, q);
      && (Find(s, r) == Some((p, ExistingLink)) <==> direct && r.existingPerson == Some(p))
      && (Find(s, r) == Some((p, LinkedUser)) <==> !direct && LinkedTo(s, r.organization, r.linkedUser, p))
      && (Find(s, r) == Some((p, ByEmail)) <==>
            !direct && !byUser && IdentifiedAs(s, r.organization, EmailKind, r.email, p))
      && (Find(s, r) == Some((p, ByPhone)) <==>
            !direct && !byUser && !byEmail && IdentifiedAs(s, r.organization, PhoneKind, r.phone, p))
      && (Find(s, r).Some? ==> Find(s, r).value.1 != Created)
  {
    if r.email.Some? {
      LookupIsIdentifierTable(s, Key(r.organization, EmailKind, r.email.value));
    }
    if r.phone.Some? {
      LookupIsIdentifierTable(s, Key(r.organization, PhoneKind, r.phone.value));
    }
    if r.linkedUser.Some? {
      forall q: Id | LinkedTo(s, r.organization, r.linkedUser, q)
        ensures FindLinked(s, r.organization, r.linkedUser.value) == Some(q)
      {
        OnlyLinked(s, r.organization, r.linkedUser.value, q);
      }
      assert FindLinked(s, r.organization, r.linkedUser.value).Some? ==>
        LinkedTo(s, r.organization, r.linkedUser, FindLinked(s, r.organization, r.linkedUser.value).value);
    }
    assert r.email.Some? && IdentifierOwner(s, Key(r.organization, EmailKind, r.email.value)).Some? ==>
      IdentifiedAs(s, r.organization, EmailKind, r.email,
        IdentifierOwner(s, Key(r.organization, EmailKind, r.email.value)).value);
    hide Consistent, FindLinked, FindByKey, IdentifierOwner, LinkedTo;
  }

  /** The user is already another person's in this organization, and this person has none. */
  ghost predicate UserTakenFrom(s: Registry, p: Id, user: Option<Id>)
    requires p in s.people
  {
    s.people[p].linkedUser.None? && exists q :: q != p && LinkedTo(s, s.people[p].organization, user, q)
  }

  /** The key is another person's. */
  predicate KeyTakenFrom(s: Registry, p: Id, organization: Id, kind: Kind, value: Option<string>) {
    value.Some? && Key(organization, kind, value.value) in s.identifiers
    && s.identifiers[Key(organization, kind, value.value)].person != p
  }

  lemma ClashesExactlyWhen(s: Registry, p: Id, r: Request)
    requires LinksUnique(s) && p in s.people
    ensures LinkClash(s, p, OrElse(s.people[p].linkedUser, r.linkedUser)) <==> UserTakenFrom(s, p, r.linkedUser)
  {
    if UserTakenFrom(s, p, r.linkedUser) {
      var q :| q != p && LinkedTo(s, s.people[p].organization, r.linkedUser, q);
      assert IsLinked(s, s.people[p].organization, r.linkedUser.value, q);
    }
    if LinkClash(s, p, OrElse(s.people[p].linkedUser, r.linkedUser)) {
      var user := OrElse(s.people[p].linkedUser, r.linkedUser).value;
      var q :| q in s.people && q != p && IsLinked(s, s.people[p].organization, user, q);
      assert s.people[p].linkedUser.None?;
      assert LinkedTo(s, s.people[p].organization, r.linkedUser, q);
    }
  }

  lemma StoresExactlyWhen(s: Registry, p: Id, organization: Id, kind: Kind, value: Option<string>, raw: Option<string>)
    requires RowsPointHome(s) && p in s.people && s.people[p].organization == organization
    ensures var result := EnsureIfGiven(s, p, organization, kind, value, raw);
      && (result.Success? <==> !KeyTakenFrom(s, p, organization, kind, value))
      && (result.Failure? ==> result.error == IdentifierTaken)
  {
    if value.Some? {
      var key := Key(organization, kind, value.value);
      if key in s.identifiers && s.identifiers[key].person == p {
        assert OwnRow(s, p, key, key);
      }
      forall k | OwnRow(s, p, key, k)
        ensures k == key
      {
        OwnRowIsHome(s, p, key, k);
      }
    }
  }

  /** A request about a person of its organization, or about nobody yet, fails exactly when its user or one of its keys
      is another person's already. */
  lemma ResolvesExactlyWhen(s: Registry, r: Request)
    requires Consistent(s) && SameOrganization(s, r)
    ensures var result := Resolve(s, r);
      match Find(s, r)
      case None => result.Success?
      case Some((p, _)) =>
        && p in s.people
        && (result == Failure(LinkedUserTaken) <==> UserTakenFrom(s, p, r.linkedUser))
        && (result == Failure(IdentifierTaken) <==>
              && !UserTakenFrom(s, p, r.linkedUser)
              && (KeyTakenFrom(s, p, r.organization, EmailKind, r.email)
                  || KeyTakenFrom(s, p, r.organization, PhoneKind, r.phone)))
  {
    if Find(s, r).None? {
      NobodyHasTheKeys(s, r);
    } else {
      FoundInOrganization(s, r);
      ClashesExactlyWhen(s, Find(s, r).value.0, r);
    }
    if WritePerson(s, r).Success? {
      WrittenAtHome(s, r);
      var (s1, p) := WritePerson(s, r).value;
      StoresExactlyWhen(s1, p, r.organization, EmailKind, r.email, r.rawEmail);
      var t := EnsureIfGiven(s1, p, r.organization, EmailKind, r.email, r.rawEmail);
      if t.Success? {
        EmailLeavesPhones(s1, r, p);
        StoresExactlyWhen(t.value, p, r.organization, PhoneKind, r.phone, r.rawPhone);
      }
    }
    hide Find, EnsureIfGiven, Consistent, RowsPointHome, LinkClash, UserTakenFrom, NewPerson, MergeRelationship, Later,
      SameOrganization, KeyTakenFrom;
  }

  lemma NobodyHasTheKeys(s: Registry, r: Request)
    requires Consistent(s) && Find(s, r).None?
    ensures !KeyTakenFrom(s, s.next, r.organization, EmailKind, r.email)
    ensures !KeyTakenFrom(s, s.next, r.organization, PhoneKind, r.phone)
  {
    if r.email.Some? {
      LookupIsIdentifierTable(s, Key(r.organization, EmailKind, r.email.value));
    }
    if r.phone.Some? {
      LookupIsIdentifierTable(s, Key(r.organization, PhoneKind, r.phone.value));
    }
  }

  lemma WrittenAtHome(s: Registry, r: Request)
    requires Consistent(s) && SameOrganization(s, r) && WritePerson(s, r).Success?
    ensures var (s1, p) := WritePerson(s, r).value;
      && p == (if Find(s, r).Some? then Find(s, r).value.0 else s.next)
      && s1.identifiers == s.identifiers && p in s1.people && s1.people[p].organization == r.organization
      && RowsPointHome(s1)
  {
    if Find(s, r).Some? {
      FoundInOrganization(s, r);
    }
    hide Find, Later, MergeRelationship, LinksUnique, PrimariesIndexed;
  }

  lemma EmailLeavesPhones(s: Registry, r: Request, p: Id)
    requires RowsPointHome(s) && p in s.people && s.people[p].organization == r.organization
    requires EnsureIfGiven(s, p, r.organization, EmailKind, r.email, r.rawEmail).Success?
    ensures var t := EnsureIfGiven(s, p, r.organization, EmailKind, r.email, r.rawEmail).value;
      && t.people == s.people && RowsPointHome(t)
      && KeyTakenFrom(t, p, r.organization, PhoneKind, r.phone) ==
         KeyTakenFrom(s, p, r.organization, PhoneKind, r.phone)
  {
    if r.email.Some? {
      EnsureEffect(s, p, Key(r.organization, EmailKind, r.email.value), r.rawEmail);
    }
  }

  // ----- a link into another organization

  /** A committed step keeps the tables in agreement exactly when its link is harmless. */
  lemma ConsistentExactlyWhen(s: Registry, r: Request)
    requires Consistent(s) && Resolve(s, r).Success?
    ensures Consistent(Resolve(s, r).value.0) <==> LinkHarmless(s, r)
  {
    if LinkHarmless(s, r) {
      ResolveKeepsConsistent(s, r);
    } else {
      var p := r.existingPerson.value;
      var s1 := LinkedPersonWritten(s, r);
      hide Consistent, WritePerson, HasRowFor, EnsureIfGiven;
      var s2 := EnsureIfGiven(s1, p, r.organization, EmailKind, r.email, r.rawEmail).value;
      KeyStored(s1, p, r.organization, EmailKind, r.email, r.rawEmail);
      KeyStored(s2, p, r.organization, PhoneKind, r.phone, r.rawPhone);
      AwayIsInconsistent(Resolve(s, r).value.0, p, r.organization);
    }
  }

  lemma LinkedPersonWritten(s: Registry, r: Request) returns (s1: Registry)
    requires !SameOrganization(s, r) && Resolve(s, r).Success?
    ensures WritePerson(s, r) == Success((s1, r.existingPerson.value))
    ensures r.existingPerson.value in s1.people && s1.people[r.existingPerson.value].organization != r.organization
    ensures forall kind, value ::
      HasRowFor(s1, r.existingPerson.value, r.organization, kind, value) <==>
        HasRowFor(s, r.existingPerson.value, r.organization, kind, value)
  {
    hide Later, MergeRelationship;
    var p := r.existingPerson.value;
    s1 := WritePerson(s, r).value.0;
    forall kind: Kind, value: Option<string>
      ensures HasRowFor(s1, p, r.organization, kind, value) <==> HasRowFor(s, p, r.organization, kind, value)
    {
      if value.Some? {
        var key := Key(r.organization, kind, value.value);
        assert forall k :: OwnRow(s1, p, key, k) <==> OwnRow(s, p, key, k);
      }
    }
  }

  /** A row of this organization points at the person. */
  ghost predicate Away(s: Registry, p: Id, organization: Id) {
    exists k :: k in s.identifiers && k.organization == organization && s.identifiers[k].person == p
  }

  /** Storing a key that the person has no row for adds a row of the request's organization. */
  lemma KeyStored(s: Registry, p: Id, organization: Id, kind: Kind, value: Option<string>, raw: Option<string>)
    requires EnsureIfGiven(s, p, organization, kind, value, raw).Success?
    ensures var t := EnsureIfGiven(s, p, organization, kind, value, raw).value;
      && t.people == s.people
      && (HasRowFor(s, p, organization, kind, value) || Away(t, p, organization))
      && (Away(s, p, organization) ==> Away(t, p, organization))
      && (forall other: Kind, v :: other != kind ==>
        (HasRowFor(t, p, organization, other, v) <==> HasRowFor(s, p, organization, other, v)))
  {
    var t := EnsureIfGiven(s, p, organization, kind, value, raw).value;
    if value.Some? {
      var key := Key(organization, kind, value.value);
      if exists k :: OwnRow(s, p, key, k) {
        var k :| OwnRow(s, p, key, k) && t == s.(identifiers := s.identifiers[k := Identifier(p, raw, true)]);
      } else {
        assert key in t.identifiers && t.identifiers[key].person == p;
      }
      if k :| k in s.identifiers && k.organization == organization && s.identifiers[k].person == p {
        assert k in t.identifiers && t.identifiers[k].person == p;
      }
      forall other: Kind, v: Option<string> | other != kind
        ensures HasRowFor(t, p, organization, other, v) <==> HasRowFor(s, p, organization, other, v)
      {
        if v.Some? {
          assert forall k :: OwnRow(t, p, Key(organization, other, v.value), k) <==>
            OwnRow(s, p, Key(organization, other, v.value), k);
        }
      }
    }
  }

  lemma AwayIsInconsistent(s: Registry, p: Id, organization: Id)
    requires Away(s, p, organization) && p in s.people && s.people[p].organization != organization
    ensures !Consistent(s)
  {
  }

  // ----- resolving again

  /** The request carries something a later, identical request can be recognised by. */
  predicate Recognisable(s: Registry, r: Request) {
    (r.existingPerson.Some? && r.existingPerson.value in s.people) || r.linkedUser.Some? || r.email.Some?
      || r.phone.Some?
  }

  lemma KeyNowLeadsTo(s: Registry, r: Request, s': Registry, p: Id, kind: Kind)
    requires StepEffect(s, r, s', p) && Consistent(s')
    ensures var value := if kind == EmailKind then r.email else r.phone;
      FindBy(s', Home(s, r, p), kind, value) == if value.Some? then Some(p) else None
  {
    var value := if kind == EmailKind then r.email else r.phone;
    if value.Some? {
      LookupIsIdentifierTable(s', Key(Home(s, r, p), kind, value.value));
    }
  }

  /** The step's own person is found again: by its link, by its user, or by a key that is now its own. */
  lemma FoundAgain(s: Registry, r: Request, s': Registry, p: Id)
    requires Consistent(s) && StepEffect(s, r, s', p) && Consistent(s')
    ensures if Recognisable(s', r) then Find(s', r).Some? && Find(s', r).value.0 == p else Find(s', r).None?
  {
    KeyNowLeadsTo(s, r, s', p, EmailKind);
    KeyNowLeadsTo(s, r, s', p, PhoneKind);
    if r.linkedUser.Some? && !(r.existingPerson.Some? && r.existingPerson.value in s.people) {
      LinkedAgain(s, r, s', p);
    }
    assert r.existingPerson.Some? && r.existingPerson.value in s.people ==> r.existingPerson.value == p;
    hide FindBy, FindLinked, Consistent, Merged, NewPerson, WithKey, FreeFor, LinkClash;
    assert r.existingPerson.Some? && r.existingPerson.value in s'.people ==> r.existingPerson.value == p;
  }

  lemma OnlyLinked(s: Registry, organization: Id, user: Id, q: Id)
    requires LinksUnique(s) && IsLinked(s, organization, user, q)
    ensures FindLinked(s, organization, user) == Some(q)
  {
  }

  lemma LinkedAgain(s: Registry, r: Request, s': Registry, p: Id)
    requires Consistent(s) && StepEffect(s, r, s', p) && Consistent(s') && r.linkedUser.Some?
    requires !(r.existingPerson.Some? && r.existingPerson.value in s.people)
    ensures FindLinked(s', r.organization, r.linkedUser.value) in {None, Some(p)}
    ensures r.email.None? && r.phone.None? ==> FindLinked(s', r.organization, r.linkedUser.value) == Some(p)
  {
    var u := r.linkedUser.value;
    forall q | IsLinked(s', r.organization, u, q)
      ensures q == p
    {
      if IsLinked(s, r.organization, u, q) {
        OnlyLinked(s, r.organization, u, q);
      }
    }
    if r.email.None? && r.phone.None? {
      assert IsLinked(s', r.organization, u, p);
    }
  }

  /** Everything about a person but how it was last resolved. */
  predicate SameButMethod(x: Person, y: Person) {
    x == y.(resolvedBy := x.resolvedBy)
  }

  /** Merging the same request once more changes only how the person was resolved. */
  lemma MergeTwice(person: Person, r: Request, how: Method, again: Method)
    ensures SameButMethod(Merged(Merged(person, r, how), r, again), Merged(person, r, how))
    ensures SameButMethod(Merged(NewPerson(r), r, again), NewPerson(r))
  {
  }

  /** The two registries differ at most in how `p` was last resolved. */
  ghost predicate SameButMethodOf(s: Registry, s': Registry, p: Id) {
    && s'.identifiers == s.identifiers && s'.next == s.next && p in s.people && p in s'.people
    && s'.people == s.people[p := s'.people[p]] && SameButMethod(s'.people[p], s.people[p])
  }

  /** Repeating a committed resolution commits, and finds the same person exactly when the request is recognisable. */
  lemma ResolveAgain(s: Registry, r: Request, s': Registry, p: Id)
    requires Consistent(s) && LinkHarmless(s, r) && Resolve(s, r) == Success((s', p))
    ensures Resolve(s', r).Success?
    ensures Resolve(s', r).value.1 == p <==> Recognisable(s', r)
    ensures Recognisable(s', r) ==> SameButMethodOf(s', Resolve(s', r).value.0, p)
  {
    ResolveHasEffect(s, r);
    StepKeepsConsistent(s, r, s', p);
    FoundAgain(s, r, s', p);
    if Recognisable(s', r) {
      RepeatSucceeds(s, r, s', p);
    } else {
      assert Find(s', r).None? && r.email.None? && r.phone.None?;
    }
  }

  lemma RepeatSucceeds(s: Registry, r: Request, s': Registry, p: Id)
    requires Consistent(s) && StepEffect(s, r, s', p) && Consistent(s')
    requires Find(s', r).Some? && Find(s', r).value.0 == p
    ensures exists s'' :: Resolve(s', r) == Success((s'', p)) && SameButMethodOf(s', s'', p)
  {
    var s1 := WrittenAgain(s, r, s', p);
    StoredKeys(s, r, s', p);
    hide Consistent, StepEffect, WritePerson, Find, EnsureIdentifier;
    if r.email.Some? {
      OwnRowRefreshed(s1, p, Key(r.organization, EmailKind, r.email.value), r.rawEmail);
    }
    if r.phone.Some? {
      OwnRowRefreshed(s1, p, Key(r.organization, PhoneKind, r.phone.value), r.rawPhone);
    }
    assert Resolve(s', r) == Success((s1, p)) && SameButMethodOf(s', s1, p);
  }

  lemma WrittenAgain(s: Registry, r: Request, s': Registry, p: Id) returns (s1: Registry)
    requires StepEffect(s, r, s', p) && Consistent(s') && p in s'.people
    requires Find(s', r).Some? && Find(s', r).value.0 == p
    ensures WritePerson(s', r) == Success((s1, p)) && SameButMethodOf(s', s1, p)
    ensures RowsPointHome(s1) && s1.people[p].organization == Home(s, r, p)
  {
    var again := Find(s', r).value.1;
    var merged := Merged(s'.people[p], r, again);
    if p in s.people {
      MergeTwice(s.people[p], r, Find(s, r).value.1, again);
    } else {
      MergeTwice(s'.people[p], r, again, again);
    }
    hide Find, Merged;
    assert SameButMethod(merged, s'.people[p]);
    assert !LinkClash(s', p, merged.linkedUser);
    s1 := s'.(people := s'.people[p := merged]);
  }

  predicate StoredFor(s: Registry, p: Id, organization: Id, kind: Kind, value: Option<string>, raw: Option<string>) {
    value.Some? ==>
      var key := Key(organization, kind, value.value);
      key in s.identifiers && s.identifiers[key] == Identifier(p, raw, true)
  }

  /** After a step the given keys are rows of the person, as the request gives them. */
  lemma StoredKeys(s: Registry, r: Request, s': Registry, p: Id)
    requires StepEffect(s, r, s', p)
    ensures p in s'.people
    ensures StoredFor(s', p, Home(s, r, p), EmailKind, r.email, r.rawEmail)
    ensures StoredFor(s', p, Home(s, r, p), PhoneKind, r.phone, r.rawPhone)
  {
    hide Find, LinkClash, Merged, NewPerson, FreeFor;
  }

  /** Refreshing a row that already says so changes nothing. */
  lemma OwnRowRefreshed(s: Registry, p: Id, key: Key, raw: Option<string>)
    requires RowsPointHome(s) && p in s.people
    requires HomeKey(s, p, key) in s.identifiers && s.identifiers[HomeKey(s, p, key)] == Identifier(p, raw, true)
    ensures EnsureIdentifier(s, p, key, raw) == Success(s)
  {
    var home := HomeKey(s, p, key);
    assert OwnRow(s, p, key, home);
    EnsureEffect(s, p, key, raw);
    assert s.identifiers[home := Identifier(p, raw, true)] == s.identifiers;
  }

  // ----- attachments are for good

  /** No step takes an identifier from the person it points at, or overwrites what a person already has. */
  ghost predicate Grows(s: Registry, s': Registry) {
    && (forall k :: k in s.identifiers ==> k in s'.identifiers && s'.identifiers[k].person == s.identifiers[k].person)
    && (forall p :: p in s.people ==> p in s'.people && PersonGrows(s.people[p], s'.people[p]))
  }

  predicate PersonGrows(x: Person, y: Person) {
    && x.organization == y.organization
    && (x.linkedUser.Some? ==> y.linkedUser == x.linkedUser)
    && (x.primaryEmail.Some? ==> y.primaryEmail == x.primaryEmail)
    && (x.primaryPhone.Some? ==> y.primaryPhone == x.primaryPhone)
    && (x.addedBy.Some? ==> y.addedBy == x.addedBy)
    && Priority(x.relationship) <= Priority(y.relationship)
    && y.addedAt <= x.addedAt
    && (x.lastActivity.Some? ==> y.lastActivity.Some? && x.lastActivity.value <= y.lastActivity.value)
  }

  lemma StepGrows(s: Registry, r: Request, s': Registry, p: Id)
    requires Consistent(s) && StepEffect(s, r, s', p)
    ensures Grows(s, s')
  {
    hide Find, LinkClash;
  }

  lemma GrowsTransitive(s: Registry, s': Registry, s'': Registry)
    requires Grows(s, s') && Grows(s', s'')
    ensures Grows(s, s'')
  {
    forall p | p in s.people
      ensures p in s''.people && PersonGrows(s.people[p], s''.people[p])
    {
      assert PersonGrows(s.people[p], s'.people[p]) && PersonGrows(s'.people[p], s''.people[p]);
    }
  }

  /** A request that carries an email and nothing else that identifies anyone. */
  predicate EmailOnly(r: Request, email: string) {
    r.existingPerson.None? && r.linkedUser.None? && r.email == Some(email) && r.phone.None?
  }

  /** Once an email is attached to a person, a request keyed only by it commits and returns that person. */
  lemma EmailFindsItsOwner(s: Registry, r: Request, email: string)
    requires Consistent(s) && EmailOnly(r, email) && Key(r.organization, EmailKind, email) in s.identifiers
    ensures Resolve(s, r).Success?
      && Resolve(s, r).value.1 == s.identifiers[Key(r.organization, EmailKind, email)].person
  {
    var key := Key(r.organization, EmailKind, email);
    LookupIsIdentifierTable(s, key);
    var p := s.identifiers[key].person;
    assert Find(s, r) == Some((p, ByEmail));
    assert !LinkClash(s, p, s.people[p].linkedUser);
    var (s1, _) := WritePerson(s, r).value;
    assert OwnRow(s1, p, key, key);
  }
}
