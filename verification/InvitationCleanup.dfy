/** Email normalisation as the clean-up writes it: lower(btrim(x)), for ASCII letters and spaces. */
module EmailText {

  function LowerChar(c: char): char {
    if 'A' <= c <= 'Z' then (c as int - 'A' as int + 'a' as int) as char else c
  }

  function Lower(s: string): string {
    seq(|s|, i requires 0 <= i < |s| => LowerChar(s[i]))
  }

  function TrimLeft(s: string): string {
    if s != [] && s[0] == ' ' then TrimLeft(s[1..]) else s
  }

  function TrimRight(s: string): string {
    if s != [] && s[|s| - 1] == ' ' then TrimRight(s[..|s| - 1]) else s
  }

  function Normal(s: string): string {
    Lower(TrimRight(TrimLeft(s)))
  }

  lemma {:induction false} TrimmedEnds(s: string)
    ensures var t := TrimLeft(s); t == [] || t[0] != ' '
    ensures var t := TrimRight(s); t <= s && (t == [] || t[|t| - 1] != ' ')
    decreases |s|
  {
    if s != [] {
      TrimmedEnds(s[1..]);
      TrimmedEnds(s[..|s| - 1]);
    }
  }

  /** A normal email is its own lower case and its own normal form. */
  lemma NormalIsStable(s: string)
    ensures Lower(Normal(s)) == Normal(s) && Normal(Normal(s)) == Normal(s)
  {
    var t := TrimRight(TrimLeft(s));
    TrimmedEnds(s);
    TrimmedEnds(TrimLeft(s));
    assert forall i :: 0 <= i < |t| ==> LowerChar(LowerChar(t[i])) == LowerChar(t[i]);
    assert Lower(Lower(t)) == Lower(t);
    if t != [] {
      assert t[0] == TrimLeft(s)[0];
    }
  }
}

/** The three clean-up passes of alembic/versions/055, then the unique index they make room for. */
module InvitationCleanup {
  import opened Common
  import opened EmailText

  datatype Status = Pending | Accepted | Declined | Cancelled | Expired

  datatype Invitation = Invitation(
    id: nat, organization: nat, email: string, status: Status,
    acceptedAt: Option<int>, declinedAt: Option<int>, cancelledAt: Option<int>, expiresAt: Option<int>, createdAt: int)

  /** The index predicate: pending, and neither accepted, declined nor cancelled. */
  predicate Open(r: Invitation) {
    r.status == Pending && r.acceptedAt == None && r.declinedAt == None && r.cancelledAt == None
  }

  predicate Overdue(r: Invitation, now: int) {
    Open(r) && r.expiresAt.Some? && r.expiresAt.value <= now
  }

  /** The index key, and the partition the ranking uses. */
  predicate SameGroup(a: Invitation, b: Invitation) {
    a.organization == b.organization && Lower(a.email) == Lower(b.email)
  }

  /** ORDER BY created_at DESC, id DESC: `a` comes before `b`. */
  predicate Newer(a: Invitation, b: Invitation) {
    a.createdAt > b.createdAt || (a.createdAt == b.createdAt && a.id > b.id)
  }

  predicate DistinctIds(rows: seq<Invitation>) {
    forall i, j :: 0 <= i < j < |rows| ==> rows[i].id != rows[j].id
  }

  // ----- what each pass does to a row, given the rows it sees

  function NormalizedRow(r: Invitation): Invitation {
    r.(email := Normal(r.email))
  }

  function ExpiredRow(r: Invitation, now: int): Invitation {
    if Overdue(r, now) then r.(status := Expired) else r
  }

  /** How many open rows of the group of `r` come before it. */
  function Before(rows: seq<Invitation>, r: Invitation): nat {
    if rows == [] then 0
    else Before(rows[..|rows| - 1], r) + if Open(rows[|rows| - 1]) && SameGroup(rows[|rows| - 1], r)
      && Newer(rows[|rows| - 1], r) then 1 else 0
  }

  function RankedRow(rows: seq<Invitation>, r: Invitation, now: int): Invitation {
    if Open(r) && 1 + Before(rows, r) > 1 then r.(status := Cancelled, cancelledAt := Some(now)) else r
  }

  function Coalesce(at: Option<int>, otherwise: int): int {
    if at.Some? then at.value else otherwise
  }

  function Pass1(rows: seq<Invitation>): seq<Invitation> {
    seq(|rows|, i requires 0 <= i < |rows| => NormalizedRow(rows[i]))
  }

  function Pass2(rows: seq<Invitation>, now: int): seq<Invitation> {
    seq(|rows|, i requires 0 <= i < |rows| => ExpiredRow(rows[i], now))
  }

  function Pass3(rows: seq<Invitation>, now: int): seq<Invitation> {
    seq(|rows|, i requires 0 <= i < |rows| => RankedRow(rows, rows[i], now))
  }

  function CleanedUp(rows: seq<Invitation>, now: int): seq<Invitation> {
    Pass3(Pass2(Pass1(rows), now), now)
  }

  // ----- the passes, in place

  method Normalize(rows: array<Invitation>)
    modifies rows
    ensures rows[..] == Pass1(old(rows[..]))
  {
    for i := 0 to rows.Length
      invariant forall k :: 0 <= k < i ==> rows[k] == NormalizedRow(old(rows[k]))
      invariant forall k :: i <= k < rows.Length ==> rows[k] == old(rows[k])
    {
      if rows[i].email != Normal(rows[i].email) {
        rows[i] := rows[i].(email := Normal(rows[i].email));
      }
    }
  }

  method ExpireOverdue(rows: array<Invitation>, now: int)
    modifies rows
    ensures rows[..] == Pass2(old(rows[..]), now)
  {
    for i := 0 to rows.Length
      invariant forall k :: 0 <= k < i ==> rows[k] == ExpiredRow(old(rows[k]), now)
      invariant forall k :: i <= k < rows.Length ==> rows[k] == old(rows[k])
    {
      if Overdue(rows[i], now) {
        rows[i] := rows[i].(status := Expired);
      }
    }
  }

  /** `row_number()` over the open rows, computed on the rows as they stand before the update. */
  method RankOpen(rows: array<Invitation>) returns (ranks: seq<nat>)
    ensures |ranks| == rows.Length
    ensures forall i :: 0 <= i < rows.Length ==> ranks[i] == 1 + Before(rows[..], rows[i])
  {
    ranks := [];
    for i := 0 to rows.Length
      invariant |ranks| == i
      invariant forall k :: 0 <= k < i ==> ranks[k] == 1 + Before(rows[..], rows[k])
    {
      var rank := 1;
      for j := 0 to rows.Length
        invariant rank == 1 + Before(rows[..j], rows[i])
      {
        assert rows[..j + 1][..j] == rows[..j];
        if Open(rows[j]) && SameGroup(rows[j], rows[i]) && Newer(rows[j], rows[i]) {
          rank := rank + 1;
        }
      }
      assert rows[..rows.Length] == rows[..];
      ranks := ranks + [rank];
    }
  }

  method CancelOlder(rows: array<Invitation>, now: int)
    modifies rows
    ensures rows[..] == Pass3(old(rows[..]), now)
  {
    var ranks := RankOpen(rows);
    for i := 0 to rows.Length
      invariant forall k :: 0 <= k < i ==> rows[k] == RankedRow(old(rows[..]), old(rows[k]), now)
      invariant forall k :: i <= k < rows.Length ==> rows[k] == old(rows[k])
    {
      if Open(rows[i]) && ranks[i] > 1 {
        rows[i] := rows[i].(status := Cancelled, cancelledAt := Some(Coalesce(rows[i].cancelledAt, now)));
      }
    }
  }

  /** `upgrade`: the three passes, after which the unique index can be created. */
  method Upgrade(rows: array<Invitation>, now: int)
    requires DistinctIds(rows[..])
    modifies rows
    ensures rows[..] == CleanedUp(old(rows[..]), now)
    ensures UniqueOpen(rows[..])
  {
    Normalize(rows);
    ExpireOverdue(rows, now);
    CancelOlder(rows, now);
    IndexCanBeBuilt(old(rows[..]), now);
  }

  // ----- what the clean-up achieves

  /** No two open rows share an index key. */
  predicate UniqueOpen(rows: seq<Invitation>) {
    forall i, j :: 0 <= i < j < |rows| && Open(rows[i]) && Open(rows[j]) ==> !SameGroup(rows[i], rows[j])
  }

  /** `i` was open, still in time, and no other such row of its group is newer. */
  predicate NewestLive(rows: seq<Invitation>, i: nat, now: int)
    requires i < |rows|
  {
    && Live(rows[i], now)
    && forall j :: 0 <= j < |rows| && Live(rows[j], now) && SameInvitee(rows[j], rows[i]) ==> !Newer(rows[j], rows[i])
  }

  predicate Live(r: Invitation, now: int) {
    Open(r) && !Overdue(r, now)
  }

  /** One organization and one email, up to case and surrounding spaces. */
  predicate SameInvitee(a: Invitation, b: Invitation) {
    a.organization == b.organization && Normal(a.email) == Normal(b.email)
  }

  lemma {:induction false} BeforeCounts(rows: seq<Invitation>, r: Invitation)
    ensures Before(rows, r) == 0 <==>
      forall j :: 0 <= j < |rows| && Open(rows[j]) && SameGroup(rows[j], r) ==> !Newer(rows[j], r)
  {
    if rows != [] {
      var init := rows[..|rows| - 1];
      BeforeCounts(init, r);
      assert forall j :: 0 <= j < |init| ==> init[j] == rows[j];
    }
  }

  /** What every row becomes: expired, kept as the newest live one, cancelled, or only re-spelled. */
  lemma RowOutcome(rows: seq<Invitation>, now: int, i: nat)
    requires i < |rows|
    ensures |CleanedUp(rows, now)| == |rows|
    ensures CleanedUp(rows, now)[i] ==
      var r := rows[i].(email := Normal(rows[i].email));
      if Overdue(rows[i], now) then r.(status := Expired)
      else if Open(rows[i]) && !NewestLive(rows, i, now) then r.(status := Cancelled, cancelledAt := Some(now))
      else r
  {
    var seen := Pass2(Pass1(rows), now);
    BeforeCounts(seen, seen[i]);
    forall j | 0 <= j < |rows|
      ensures Open(seen[j]) <==> Live(rows[j], now)
      ensures SameGroup(seen[j], seen[i]) <==> SameInvitee(rows[j], rows[i])
      ensures Newer(seen[j], seen[i]) <==> Newer(rows[j], rows[i])
    {
      NormalIsStable(rows[j].email);
      NormalIsStable(rows[i].email);
    }
  }

  lemma IndexCanBeBuilt(rows: seq<Invitation>, now: int)
    requires DistinctIds(rows)
    ensures UniqueOpen(CleanedUp(rows, now))
  {
    var done := CleanedUp(rows, now);
    forall i, j | 0 <= i < j < |done| && Open(done[i]) && Open(done[j])
      ensures !SameGroup(done[i], done[j])
    {
      RowOutcome(rows, now, i);
      RowOutcome(rows, now, j);
      NormalIsStable(rows[i].email);
      NormalIsStable(rows[j].email);
      assert Newer(rows[i], rows[j]) || Newer(rows[j], rows[i]);
    }
  }

  /** The newest of a non-empty set of indices, by (created_at, id). */
  lemma NewestOf(rows: seq<Invitation>, s: set<nat>) returns (i: nat)
    requires s != {} && forall k :: k in s ==> k < |rows|
    ensures i in s && forall k :: k in s ==> !Newer(rows[k], rows[i])
    decreases s
  {
    var k :| k in s;
    if s == {k} {
      i := k;
    } else {
      var m := NewestOf(rows, s - {k});
      i := if Newer(rows[k], rows[m]) then k else m;
    }
  }

  /** Of the group of `live`, the clean-up leaves row `i` open and no other. */
  ghost predicate OnlyOneKept(rows: seq<Invitation>, now: int, live: nat, i: nat)
    requires live < |rows| && i < |rows|
  {
    && SameInvitee(rows[i], rows[live])
    && forall k :: 0 <= k < |rows| && SameInvitee(rows[k], rows[live]) ==> (Open(CleanedUp(rows, now)[k]) <==> k == i)
  }

  /** A group with a live invitation keeps exactly one open row, its newest live one. */
  lemma GroupKeepsNewest(rows: seq<Invitation>, now: int, live: nat)
    requires DistinctIds(rows) && live < |rows| && Live(rows[live], now)
    ensures exists i :: 0 <= i < |rows| && NewestLive(rows, i, now) && OnlyOneKept(rows, now, live, i)
  {
    var group := set k: nat | k < |rows| && Live(rows[k], now) && SameInvitee(rows[k], rows[live]);
    assert live in group;
    var i := NewestOf(rows, group);
    assert NewestLive(rows, i, now) by {
      forall j: nat | j < |rows| && Live(rows[j], now) && SameInvitee(rows[j], rows[i])
        ensures !Newer(rows[j], rows[i])
      {
        assert j in group;
      }
    }
    forall k | 0 <= k < |rows| && SameInvitee(rows[k], rows[live])
      ensures Open(CleanedUp(rows, now)[k]) <==> k == i
    {
      RowOutcome(rows, now, k);
      if k != i && k in group {
        assert Newer(rows[i], rows[k]);
      }
    }
    assert OnlyOneKept(rows, now, live, i);
  }

  /** Rows that were not open keep everything but the spelling of their email. */
  lemma OthersOnlyRespelled(rows: seq<Invitation>, now: int, i: nat)
    requires i < |rows| && !Open(rows[i])
    ensures CleanedUp(rows, now)[i] == rows[i].(email := Normal(rows[i].email))
    ensures SameInvitee(CleanedUp(rows, now)[i], rows[i])
  {
    RowOutcome(rows, now, i);
    NormalIsStable(rows[i].email);
  }

  /** A second run of the migration at the same moment changes nothing. */
  lemma CleanUpIsIdempotent(rows: seq<Invitation>, now: int)
    requires DistinctIds(rows)
    ensures CleanedUp(CleanedUp(rows, now), now) == CleanedUp(rows, now)
  {
    var done := CleanedUp(rows, now);
    forall i | 0 <= i < |rows|
      ensures CleanedUp(done, now)[i] == done[i]
    {
      RowOutcome(rows, now, i);
      RowOutcome(done, now, i);
      NormalIsStable(rows[i].email);
      if Open(done[i]) {
        StillNewest(rows, now, i);
      }
    }
  }

  /** The row left open in a group is the newest live one of the cleaned-up rows too. */
  lemma StillNewest(rows: seq<Invitation>, now: int, i: nat)
    requires i < |rows| && Open(CleanedUp(rows, now)[i])
    ensures NewestLive(CleanedUp(rows, now), i, now)
  {
    var done := CleanedUp(rows, now);
    RowOutcome(rows, now, i);
    NormalIsStable(rows[i].email);
    forall j | 0 <= j < |done| && Live(done[j], now) && SameInvitee(done[j], done[i])
      ensures !Newer(done[j], done[i])
    {
      RowOutcome(rows, now, j);
      NormalIsStable(rows[j].email);
    }
  }
}
