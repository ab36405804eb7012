/** What the report says of a parser that makes no mistake. */
module FaithfulParses {
  import opened Common
  import opened Candidates
  import opened RecordMatching
  import opened ScoringTotals
  import opened ParserScoring

  /** The parsed record is the expected one, as far as it is compared. */
  ghost predicate FaithfulRecord(lib: Library, c: Collection, expected: Record, actual: Record) {
    && Agrees(IdentityFields(c), expected, actual)
    && forall i :: 0 <= i < |FieldMap(c)| && FieldMap(c)[i].expected in expected ==>
         var f := FieldMap(c)[i];
         ValueMatches(lib, Get(expected, f.expected), ActualValue(lib, f, actual), f.isDate)
  }

  ghost predicate FaithfulRecords(lib: Library, c: Collection, expected: seq<Record>, actual: seq<Record>) {
    |expected| == |actual| && forall i :: 0 <= i < |expected| ==> FaithfulRecord(lib, c, expected[i], actual[i])
  }

  ghost predicate FaithfulProfile(lib: Library, expected: Record, actual: Record) {
    forall i :: 0 <= i < |PROFILE_FIELDS| && PROFILE_FIELDS[i] in expected ==>
      ValueMatches(lib, Get(expected, PROFILE_FIELDS[i]), Get(actual, PROFILE_FIELDS[i]), false)
  }

  /** Each expected skill named once, and no other. */
  ghost predicate FaithfulSkills(lib: Library, expected: Document, parsed: Document) {
    Elems(SkillNames(lib, parsed)) == SkillKeys(lib, expected)
      && |SkillNames(lib, parsed)| == |SkillKeys(lib, expected)|
  }

  ghost predicate Faithful(lib: Library, expected: Document, parsed: Document) {
    && FaithfulProfile(lib, expected.profile, parsed.profile) && FaithfulSkills(lib, expected, parsed)
    && forall i :: 0 <= i < |COLLECTIONS| ==>
         FaithfulRecords(lib, COLLECTIONS[i], RecordsOf(expected, COLLECTIONS[i]), RecordsOf(parsed, COLLECTIONS[i]))
  }

  ghost predicate Sensible(sim: Similarity) {
    InUnitRange(sim) && Reflexive(sim)
  }

  lemma MatchedFieldStaysFlawless(lib: Library, t: Tally, metric: string, expected: Value, actual: Value, isDate: bool)
    requires Flawless(t) && ValueMatches(lib, expected, actual, isDate)
    ensures Flawless(FieldScored(lib, t, metric, expected, actual, isDate))
  {
    var u := FieldScored(lib, t, metric, expected, actual, isDate);
    hide ValueMatches;
    forall f
      ensures Count(u.fieldCorrect, f) == Count(u.fieldTotal, f)
    {
      assert Count(t.fieldCorrect, f) == Count(t.fieldTotal, f)
        && Count(t.fieldCorrect, metric) == Count(t.fieldTotal, metric);
    }
  }

  lemma {:induction false} ProfileStaysFlawless(lib: Library, t: Tally, expected: Record, actual: Record, n: nat)
    requires Flawless(t) && n <= |PROFILE_FIELDS| && FaithfulProfile(lib, expected, actual)
    ensures Flawless(ProfileScored(lib, t, expected, actual, n))
  {
    hide ValueMatches, Flawless, FieldScored;
    if n > 0 {
      ProfileStaysFlawless(lib, t, expected, actual, n - 1);
      var before, field := ProfileScored(lib, t, expected, actual, n - 1), PROFILE_FIELDS[n - 1];
      if field in expected {
        MatchedFieldStaysFlawless(lib, before, "profile." + field, Get(expected, field), Get(actual, field), false);
      }
    }
  }

  lemma {:induction false} PairStaysFlawless(lib: Library, c: Collection, t: Tally, expected: Record, actual: Record,
      n: nat)
    requires Flawless(t) && n <= |FieldMap(c)| && FaithfulRecord(lib, c, expected, actual)
    ensures Flawless(PairScored(lib, c, t, expected, actual, n))
  {
    hide ValueMatches, Flawless, FieldScored, FieldMap, ActualValue, MetricOf;
    if n > 0 {
      PairStaysFlawless(lib, c, t, expected, actual, n - 1);
      var before, f := PairScored(lib, c, t, expected, actual, n - 1), FieldMap(c)[n - 1];
      if f.expected in expected {
        MatchedFieldStaysFlawless(lib, before, MetricOf(c, f), Get(expected, f.expected), ActualValue(lib, f, actual),
          f.isDate);
      }
    }
  }

  lemma {:induction false} MatchesStayFlawless(lib: Library, p: Problem, c: Collection, t: Tally,
      matches: seq<(nat, nat)>)
    requires Flawless(t) && InRange(p, matches) && FaithfulRecords(lib, c, p.expected, p.actual)
    requires forall i :: 0 <= i < |matches| ==> matches[i].0 == matches[i].1
    ensures Flawless(MatchesScored(lib, p, c, t, matches))
    decreases |matches|
  {
    hide Flawless, FaithfulRecord, PairScored, FieldMap;
    if matches != [] {
      var (e, a) := matches[|matches| - 1];
      var before := MatchesScored(lib, p, c, t, matches[..|matches| - 1]);
      MatchesStayFlawless(lib, p, c, t, matches[..|matches| - 1]);
      PairStaysFlawless(lib, c, before, p.expected[e], p.actual[a], |FieldMap(c)|);
    }
  }

  lemma AllMatchedStaysFlawless(t: Tally, c: Collection, n: nat, duplicates: nat, claims: nat, unsafe: nat)
    requires Flawless(t)
    ensures Flawless(Claimed(Recorded(t, c, n, n, n, 0), duplicates, claims, unsafe))
  {
    var u := Recorded(t, c, n, n, n, 0);
    forall k
      ensures Count(u.matched, k) == Count(u.expected, k) == Count(u.predicted, k)
    {
      assert Count(t.matched, k) == Count(t.expected, k) == Count(t.predicted, k);
      assert Count(t.matched, c) == Count(t.expected, c) == Count(t.predicted, c);
    }
  }

  lemma CollectionStaysFlawless(lib: Library, c: Collection, expected: seq<Record>, actual: seq<Record>, t: Tally)
    requires Flawless(t) && Sensible(lib.similar) && FaithfulRecords(lib, c, expected, actual)
    ensures Flawless(CollectionScored(lib, c, expected, actual, t))
  {
    var p := ProblemOf(lib, c, expected, actual);
    FaithfulMatching(lib, c, expected, actual);
    CountedStaysFlawless(lib, c, expected, actual, t);
    ChosenInRange(p, Matching(p));
    assert CollectionScored(lib, c, expected, actual, t) ==
      MatchesScored(lib, p, c, CollectionCounted(lib, c, expected, actual, t), Pairs(Matching(p)));
    hide *;
    MatchesStayFlawless(lib, p, c, CollectionCounted(lib, c, expected, actual, t), Pairs(Matching(p)));
  }

  lemma FaithfulMatching(lib: Library, c: Collection, expected: seq<Record>, actual: seq<Record>)
    requires Sensible(lib.similar) && FaithfulRecords(lib, c, expected, actual)
    ensures var p := ProblemOf(lib, c, expected, actual);
      && p.expected == expected && p.actual == actual && |Matching(p)| == |expected|
      && |Pairs(Matching(p))| == |expected|
      && forall i :: 0 <= i < |expected| ==> Pairs(Matching(p))[i].0 == Pairs(Matching(p))[i].1
  {
    var p := ProblemOf(lib, c, expected, actual);
    assert p.expected == expected && p.actual == actual;
    FaithfulParseIsMatched(p);
    DiagonalPairs(|expected|);
    hide *;
  }

  lemma DiagonalPairs(n: nat)
    ensures |Diagonal(n)| == n && |Pairs(Diagonal(n))| == n
    ensures forall i :: 0 <= i < n ==> Pairs(Diagonal(n))[i].0 == Pairs(Diagonal(n))[i].1
  {
  }

  lemma CountedStaysFlawless(lib: Library, c: Collection, expected: seq<Record>, actual: seq<Record>, t: Tally)
    requires Flawless(t) && |actual| == |expected| == |Matching(ProblemOf(lib, c, expected, actual))|
    ensures Flawless(CollectionCounted(lib, c, expected, actual, t))
  {
    CollectionNumbers(lib, c, expected, actual, t);
    var n := |expected|;
    AllMatchedStaysFlawless(t, c, n, Repeats(KeysOf(lib, c, actual)), n, UnsafeImports(lib, c, actual));
    hide *;
  }

  lemma {:induction false} CollectionsStayFlawless(lib: Library, expected: Document, parsed: Document, t: Tally, n: nat)
    requires Flawless(t) && Sensible(lib.similar) && Faithful(lib, expected, parsed) && n <= |COLLECTIONS|
    ensures Flawless(CollectionsScored(lib, expected, parsed, t, n))
  {
    hide Flawless, CollectionScored, FaithfulRecords, RecordsOf, FaithfulSkills, FaithfulProfile, Sensible;
    if n > 0 {
      var c := COLLECTIONS[n - 1];
      CollectionsStayFlawless(lib, expected, parsed, t, n - 1);
      CollectionStaysFlawless(lib, c, RecordsOf(expected, c), RecordsOf(parsed, c),
        CollectionsScored(lib, expected, parsed, t, n - 1));
    }
  }

  lemma {:induction false} AllHit(s: seq<string>, keys: set<string>)
    requires Elems(s) <= keys
    ensures Hits(s, keys) == |s|
  {
    if s != [] {
      assert s[0] in Elems(s);
      assert forall x :: x in Elems(s[1..]) ==> x in Elems(s);
      AllHit(s[1..], keys);
    }
  }

  lemma SkillsStayFlawless(lib: Library, expected: Document, parsed: Document, t: Tally)
    requires Flawless(t) && FaithfulSkills(lib, expected, parsed)
    ensures Flawless(SkillsScored(lib, expected, parsed, t))
  {
    var keys, names := SkillKeys(lib, expected), SkillNames(lib, parsed);
    SkillNumbers(lib, expected, parsed, t);
    AllHit(names, keys);
    assert Elems(names) * keys == keys;
    AllMatchedStaysFlawless(t, Skills, |keys|, 0, |names|, EmptyNames(names));
    hide Flawless, SkillsScored, Claimed, Recorded, SkillKeys, SkillNames, EmptyNames;
  }

  lemma FixtureStaysFlawless(lib: Library, expected: Document, parsed: Document, t: Tally)
    requires Flawless(t) && Sensible(lib.similar) && Faithful(lib, expected, parsed)
    ensures Flawless(FixtureScored(lib, expected, parsed, t))
  {
    hide Flawless, Sensible, FaithfulProfile, FaithfulSkills, FaithfulRecords, SkillsScored, CollectionsScored,
      ProfileScored;
    ProfileStaysFlawless(lib, t, expected.profile, parsed.profile, |PROFILE_FIELDS|);
    var profile := ProfileScored(lib, t, expected.profile, parsed.profile, |PROFILE_FIELDS|);
    CollectionsStayFlawless(lib, expected, parsed, profile, |COLLECTIONS|);
    SkillsStayFlawless(lib, expected, parsed, CollectionsScored(lib, expected, parsed, profile, |COLLECTIONS|));
  }

  ghost predicate AllFaithful(lib: Library, attempts: seq<Attempt>) {
    forall i :: 0 <= i < |attempts| ==>
      attempts[i].parsed.Some? && Faithful(lib, attempts[i].expected, attempts[i].parsed.value)
  }

  lemma {:induction false} FaithfulTotals(lib: Library, attempts: seq<Attempt>)
    requires Sensible(lib.similar) && AllFaithful(lib, attempts)
    ensures Flawless(AllScored(lib, attempts)) && AllScored(lib, attempts).catastrophic == 0
    decreases |attempts|
  {
    hide Faithful, Sensible, FixtureScored;
    if attempts != [] {
      var n := |attempts| - 1;
      FaithfulTotals(lib, attempts[..n]);
      hide Flawless;
      FixtureStaysFlawless(lib, attempts[n].expected, attempts[n].parsed.value, AllScored(lib, attempts[..n]));
      FixtureKeepsFailures(lib, attempts[n].expected, attempts[n].parsed.value, AllScored(lib, attempts[..n]));
    }
  }

  lemma {:induction false} PairKeepsFailures(lib: Library, c: Collection, t: Tally, expected: Record, actual: Record,
      n: nat)
    requires n <= |FieldMap(c)|
    ensures PairScored(lib, c, t, expected, actual, n).catastrophic == t.catastrophic
  {
    hide ValueMatches, FieldMap, ActualValue, MetricOf;
    if n > 0 {
      PairKeepsFailures(lib, c, t, expected, actual, n - 1);
    }
  }

  lemma {:induction false} MatchesKeepFailures(lib: Library, p: Problem, c: Collection, t: Tally,
      matches: seq<(nat, nat)>)
    requires InRange(p, matches)
    ensures MatchesScored(lib, p, c, t, matches).catastrophic == t.catastrophic
    decreases |matches|
  {
    hide PairScored, FieldMap;
    if matches != [] {
      var (e, a) := matches[|matches| - 1];
      var before := MatchesScored(lib, p, c, t, matches[..|matches| - 1]);
      MatchesKeepFailures(lib, p, c, t, matches[..|matches| - 1]);
      PairKeepsFailures(lib, c, before, p.expected[e], p.actual[a], |FieldMap(c)|);
    }
  }

  lemma {:induction false} CollectionsKeepFailures(lib: Library, expected: Document, parsed: Document, t: Tally, n: nat)
    requires n <= |COLLECTIONS|
    ensures CollectionsScored(lib, expected, parsed, t, n).catastrophic == t.catastrophic
  {
    hide Matching, MatchesScored, KeysOf, Repeats, UnsafeImports, RecordsOf;
    if n > 0 {
      var c := COLLECTIONS[n - 1];
      var e, a := RecordsOf(expected, c), RecordsOf(parsed, c);
      var before := CollectionsScored(lib, expected, parsed, t, n - 1);
      CollectionsKeepFailures(lib, expected, parsed, t, n - 1);
      CollectionNumbers(lib, c, e, a, before);
      MatchesKeepFailures(lib, ProblemOf(lib, c, e, a), c, CollectionCounted(lib, c, e, a, before),
        Pairs(Matching(ProblemOf(lib, c, e, a))));
    }
  }

  lemma {:induction false} ProfileKeepsFailures(lib: Library, t: Tally, expected: Record, actual: Record, n: nat)
    requires n <= |PROFILE_FIELDS|
    ensures ProfileScored(lib, t, expected, actual, n).catastrophic == t.catastrophic
  {
    hide ValueMatches;
    if n > 0 {
      ProfileKeepsFailures(lib, t, expected, actual, n - 1);
    }
  }

  lemma FixtureKeepsFailures(lib: Library, expected: Document, parsed: Document, t: Tally)
    ensures FixtureScored(lib, expected, parsed, t).catastrophic == t.catastrophic
  {
    ProfileKeepsFailures(lib, t, expected.profile, parsed.profile, |PROFILE_FIELDS|);
    var profile := ProfileScored(lib, t, expected.profile, parsed.profile, |PROFILE_FIELDS|);
    CollectionsKeepFailures(lib, expected, parsed, profile, |COLLECTIONS|);
    SkillNumbers(lib, expected, parsed, CollectionsScored(lib, expected, parsed, profile, |COLLECTIONS|));
    hide ProfileScored, CollectionsScored, SkillKeys, SkillNames, EmptyNames, Hits, Elems;
  }

  /** A parser that returns every fixture's records, fields and skills is reported as flawless: all found, all dates
      right, nothing omitted or invented, no failure. */
  lemma FaithfulParserIsFlawless(lib: Library, attempts: seq<Attempt>, totals: Tally, dateKeys: seq<string>,
      round: Rounding)
    requires Sensible(lib.similar) && Rounds(round) && AllFaithful(lib, attempts) && FullyScored(lib, attempts, totals)
    ensures var o := BuildOverall(totals, |attempts|, dateKeys, round);
      && o.recall == 100.0 && o.precision == 100.0 && o.dateAccuracy == 100.0
      && (CounterSum(totals.predicted) > 0 ==> o.omission == 0.0 && o.hallucination == 0.0)
      && (attempts != [] ==> o.catastrophicFailure == 0.0)
  {
    FaithfulTotals(lib, attempts);
    FlawlessIsReported(totals, |attempts|, dateKeys, round);
    ExtremesAreExact(0, |attempts|, round);
    hide Flawless, AllFaithful, CounterSum, CountAll;
  }
}
