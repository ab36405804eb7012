/** What scoring one fixture does to each counter, said of the records, fields and skills themselves. */
module ScoringEffects {
  import opened Common
  import opened Counting
  import opened Candidates
  import opened RecordMatching
  import opened ScoringTotals
  import opened ParserScoring

  // ----- skills

  /** A skill that names something. */
  predicate Present(v: Value) {
    v != Null && v != Text("") && v != Flag(false)
  }

  lemma {:induction false} NamedAreThePresent(items: seq<Value>, v: Value)
    ensures v in NamedSkills(items) <==> v in items && Present(v)
  {
    if items != [] {
      NamedAreThePresent(items[1..], v);
    }
  }

  lemma {:induction false} NamedInOrder(items: seq<Value>, item: Value)
    ensures NamedSkills(items + [item]) == NamedSkills(items) + if Present(item) then [item] else []
  {
    if items == [] {
      assert [item][1..] == [];
    } else {
      assert (items + [item])[1..] == items[1..] + [item];
      NamedInOrder(items[1..], item);
    }
  }

  /** The names of the present skills, in order, are what counts as predicted. */
  lemma {:induction false} NamedCounted(items: seq<Value>)
    ensures |NamedSkills(items)| == HowMany(items, v => Present(v))
    decreases |items|
  {
    if items != [] {
      var n := |items| - 1;
      assert items[..n] + [items[n]] == items;
      NamedInOrder(items[..n], items[n]);
      NamedCounted(items[..n]);
      HowManyGrows(items, v => Present(v));
      hide HowMany, Present;
    }
  }

  /** What the skills of a fixture add: every distinct expected name is expected, every present predicted one predicted;
      a distinct name on both sides is matched; what is predicted and not expected is hallucinated; what is predicted
      more than once is a duplicate; an empty name is an invalid claim. */
  lemma SkillsComeTo(lib: Library, expected: Document, parsed: Document, t: Tally)
    ensures var u := SkillsScored(lib, expected, parsed, t);
      var names := Normalized(lib, NamedSkills(parsed.skills));
      var wanted := set v | v in expected.skills :: lib.normalized(v);
      var given := set i | 0 <= i < |names| :: names[i];
      && u.expected == Bump(t.expected, Skills, |wanted|) && u.predicted == Bump(t.predicted, Skills, |names|)
      && u.matched == Bump(t.matched, Skills, |given * wanted|)
      && u.omitted == t.omitted + |wanted| - |given * wanted|
      && u.hallucinated == t.hallucinated + HowMany(names, x => x !in wanted)
      && u.duplicates == t.duplicates + |names| - |given| && u.predictedClaims == t.predictedClaims + |names|
      && u.invalidClaims == t.invalidClaims + HowMany(names, x => x == "")
      && u.fieldTotal == t.fieldTotal && u.fieldCorrect == t.fieldCorrect && u.catastrophic == t.catastrophic
  {
    var names := SkillNames(lib, parsed);
    var wanted := SkillKeys(lib, expected);
    WantedNames(lib, expected.skills);
    assert Elems(names) == set i | 0 <= i < |names| :: names[i];
    EmptyNamesCounted(names);
    HitsAndMisses(names, wanted);
    SkillNumbers(lib, expected, parsed, t);
    hide SkillsScored, Hits, EmptyNames, Elems;
  }

  lemma WantedNames(lib: Library, items: seq<Value>)
    ensures Elems(Normalized(lib, items)) == set v | v in items :: lib.normalized(v)
  {
    var names := Normalized(lib, items);
    forall v | v in items
      ensures lib.normalized(v) in names
    {
      var i :| 0 <= i < |items| && items[i] == v;
      assert names[i] == lib.normalized(v);
    }
  }

  lemma {:induction false} HitsAndMisses(names: seq<string>, keys: set<string>)
    ensures Hits(names, keys) + HowMany(names, x => x !in keys) == |names|
    decreases |names|
  {
    if names != [] {
      HitsAndMisses(names[..|names| - 1], keys);
      HitsOfLast(names, keys);
      HowManyGrows(names, x => x !in keys);
      hide HowMany, Hits;
    }
  }

  // ----- records

  /** What the records of a collection add, before the fields of the matched pairs are compared. */
  lemma RecordsComeTo(lib: Library, c: Collection, expected: seq<Record>, actual: seq<Record>, t: Tally)
    ensures var u := CollectionCounted(lib, c, expected, actual, t);
      var m := |Matching(ProblemOf(lib, c, expected, actual))|;
      var identified := Identified(KeysOf(lib, c, actual));
      && m <= |expected| && m <= |actual|
      && u.expected == Bump(t.expected, c, |expected|) && u.predicted == Bump(t.predicted, c, |actual|)
      && u.matched == Bump(t.matched, c, m) && u.omitted == t.omitted + |expected| - m
      && u.hallucinated == t.hallucinated + |actual| - m
      && u.duplicates == t.duplicates + |identified| - |set k | k in identified|
      && u.predictedClaims == t.predictedClaims + |actual|
      && u.invalidClaims == t.invalidClaims + HowMany(actual, r => lib.unsafeImport(c, r))
      && u.fieldTotal == t.fieldTotal && u.fieldCorrect == t.fieldCorrect && u.catastrophic == t.catastrophic
  {
    CollectionNumbers(lib, c, expected, actual, t);
    UnsafeImportsCounted(lib, c, actual);
    hide Matching, CollectionCounted, KeysOf, UnsafeImports, Identified, ProblemOf;
  }

  /** What a fixture has to add to a collection, said of the two documents. */
  lemma CountsAreOfTheDocuments(lib: Library, expected: Document, parsed: Document, c: Collection)
    requires c != Skills
    ensures var n := CountsOf(lib, expected, parsed, c);
      && n.expected == (if c in expected.records then |expected.records[c]| else 0)
      && n.predicted == (if c in parsed.records then |parsed.records[c]| else 0)
      && (c in expected.records && c in parsed.records ==>
            n.matched == |Matching(Problem(IdentityFields(c), expected.records[c], parsed.records[c], lib.similar))|)
  {
    hide Matching, IdentityFields;
  }

  /** The keys that take part in the count of repeats are those with some non-empty part. */
  lemma {:induction false} IdentifiedExactly(keys: seq<Key>, k: Key)
    ensures k in Identified(keys) <==> k in keys && exists i :: 0 <= i < |k| && k[i] != ""
    ensures multiset(Identified(keys))[k] == if HasIdentity(k) then multiset(keys)[k] else 0
  {
    if keys != [] {
      IdentifiedExactly(keys[1..], k);
      assert keys == [keys[0]] + keys[1..];
    }
  }

  // ----- fields

  /** The first dot of the text is at this place. */
  predicate FirstDot(u: string, k: nat) {
    k < |u| && u[k] == '.' && forall i :: 0 <= i < k ==> u[i] != '.'
  }

  lemma FirstDotIsOne(u: string, k: nat, l: nat)
    requires FirstDot(u, k) && FirstDot(u, l)
    ensures k == l
  {
  }

  lemma DotsApart(s: string, x: string, t: string, y: string)
    requires '.' !in s && '.' !in t && s + "." + x == t + "." + y
    ensures s == t && x == y
  {
    var u := s + "." + x;
    assert FirstDot(u, |s|);
    assert FirstDot(t + "." + y, |t|);
    FirstDotIsOne(u, |s|, |t|);
    assert s == u[..|s|] && t == u[..|t|];
    assert x == u[|s| + 1..] && y == u[|t| + 1..];
  }

  lemma NamesDiffer(c: Collection, d: Collection)
    ensures '.' !in CollectionName(c)
    ensures CollectionName(c) == CollectionName(d) ==> c == d
  {
    assert |"employments"| == 11 && |"education"| == 9 && |"internships"| == 11 && |"freelance"| == 9;
    assert |"gig_platforms"| == 13 && |"certifications"| == 14 && |"projects"| == 8 && |"skills"| == 6;
    assert "employments"[0] == 'e' && "internships"[0] == 'i' && "education"[0] == 'e' && "freelance"[0] == 'f';
  }

  /** Every field of every collection has a metric of its own. */
  lemma MetricsDiffer(c: Collection, f: ScoredField, d: Collection, g: ScoredField)
    requires MetricOf(c, f) == MetricOf(d, g)
    ensures c == d && f.expected == g.expected
  {
    NamesDiffer(c, d);
    NamesDiffer(d, c);
    hide CollectionName;
    DotsApart(CollectionName(c), f.expected, CollectionName(d), g.expected);
  }

  /** A field is compared as a date exactly when it is a date by name, and no field comes up twice. */
  lemma FieldsDiffer(c: Collection, i: nat, j: nat)
    requires i < |FieldMap(c)| && j < |FieldMap(c)|
    ensures FieldMap(c)[i].isDate <==> FieldMap(c)[i].expected in {"start", "end", "issued", "expiry"}
    ensures i != j ==> FieldMap(c)[i].expected != FieldMap(c)[j].expected
    ensures FieldMap(c)[i].actual == FieldMap(c)[i].expected
  {
    NamesOfFields();
    match c
    case Employments =>
    case Education =>
    case Internships =>
    case Freelance =>
    case GigPlatforms =>
    case Certifications =>
    case Projects =>
    case Skills =>
  }

  /** The names of all fields, told apart by their first letters and lengths. */
  lemma NamesOfFields()
    ensures |"company_name"| == 12 && |"role_title"| == 10 && |"institution_name"| == 16 && |"degree"| == 6
    ensures |"field_of_study"| == 14 && |"role"| == 4 && |"client_name"| == 11 && |"project_title"| == 13
    ensures |"platform_name"| == 13 && |"partner_role"| == 12 && |"title"| == 5 && |"issuing_organization"| == 20
    ensures |"url"| == 3 && |"start"| == 5 && |"end"| == 3 && |"is_current"| == 10 && |"issued"| == 6
    ensures |"expiry"| == 6 && "title"[0] == 't' && "start"[0] == 's' && "url"[0] == 'u' && "end"[0] == 'e'
    ensures "role_title"[0] == 'r' && "is_current"[0] == 'i' && "degree"[0] == 'd' && "issued"[0] == 'i'
    ensures "expiry"[0] == 'e'
  {
  }

  /** What the parser gives for a field: dates are put together from the record, other fields are read from it. */
  function Given(lib: Library, f: ScoredField, actual: Record): Value {
    if f.isDate then lib.date(actual, f.actual) else if f.actual in actual then actual[f.actual] else Null
  }

  /** The counts of a metric after one more comparison, or none. */
  predicate Compared(t: Tally, u: Tally, metric: string, compared: bool, correct: bool) {
    && Count(u.fieldTotal, metric) == Count(t.fieldTotal, metric) + (if compared then 1 else 0)
    && Count(u.fieldCorrect, metric) == Count(t.fieldCorrect, metric) + (if compared && correct then 1 else 0)
  }

  lemma OneComparison(lib: Library, t: Tally, metric: string, expected: Value, actual: Value, isDate: bool,
      other: string)
    ensures var u := FieldScored(lib, t, metric, expected, actual, isDate);
      && Compared(t, u, metric, true, ValueMatches(lib, expected, actual, isDate))
      && (other != metric ==> Compared(t, u, other, false, false))
  {
    hide ValueMatches;
  }

  /** What one matched pair adds to the metric of a field: one comparison if the expected record has the field, and one
      match if the values match. */
  lemma {:induction false} PairComesTo(lib: Library, c: Collection, t: Tally, expected: Record, actual: Record, n: nat,
      i: nat)
    requires i < n <= |FieldMap(c)|
    ensures var (u, f) := (PairScored(lib, c, t, expected, actual, n), FieldMap(c)[i]);
      var compared := f.expected in expected;
      Compared(t, u, MetricOf(c, f), compared,
        compared && ValueMatches(lib, expected[f.expected], Given(lib, f, actual), f.isDate))
  {
    if i < n - 1 {
      PairComesTo(lib, c, t, expected, actual, n - 1, i);
      EarlierStays(lib, c, t, expected, actual, n, i);
      hide *;
      ThenCompared(t, PairScored(lib, c, t, expected, actual, n - 1), PairScored(lib, c, t, expected, actual, n),
        MetricOf(c, FieldMap(c)[i]), FieldMap(c)[i].expected in expected, FieldMap(c)[i].expected in expected
          && ValueMatches(lib, expected[FieldMap(c)[i].expected], Given(lib, FieldMap(c)[i], actual),
            FieldMap(c)[i].isDate));
    } else {
      LastComesTo(lib, c, t, expected, actual, n);
    }
  }

  lemma ThenCompared(t: Tally, before: Tally, u: Tally, metric: string, compared: bool, correct: bool)
    requires Compared(t, before, metric, compared, correct) && Compared(before, u, metric, false, false)
    ensures Compared(t, u, metric, compared, correct)
  {
  }

  lemma EarlierStays(lib: Library, c: Collection, t: Tally, expected: Record, actual: Record, n: nat, i: nat)
    requires i < n - 1 < |FieldMap(c)|
    ensures Compared(PairScored(lib, c, t, expected, actual, n - 1), PairScored(lib, c, t, expected, actual, n),
      MetricOf(c, FieldMap(c)[i]), false, false)
  {
    var f, g := FieldMap(c)[i], FieldMap(c)[n - 1];
    var before := PairScored(lib, c, t, expected, actual, n - 1);
    FieldsDiffer(c, i, n - 1);
    if MetricOf(c, f) == MetricOf(c, g) {
      MetricsDiffer(c, f, c, g);
    }
    OneComparison(lib, before, MetricOf(c, g), Get(expected, g.expected), ActualValue(lib, g, actual), g.isDate,
      MetricOf(c, f));
    hide FieldMap, MetricOf, ValueMatches, FieldScored, ActualValue;
  }

  lemma LastComesTo(lib: Library, c: Collection, t: Tally, expected: Record, actual: Record, n: nat)
    requires 0 < n <= |FieldMap(c)|
    ensures var (u, g) := (PairScored(lib, c, t, expected, actual, n), FieldMap(c)[n - 1]);
      var compared := g.expected in expected;
      Compared(t, u, MetricOf(c, g), compared,
        compared && ValueMatches(lib, expected[g.expected], Given(lib, g, actual), g.isDate))
  {
    var g := FieldMap(c)[n - 1];
    var before := PairScored(lib, c, t, expected, actual, n - 1);
    OtherMetrics(lib, c, t, expected, actual, n - 1, MetricOf(c, g));
    assert ActualValue(lib, g, actual) == Given(lib, g, actual);
    OneComparison(lib, before, MetricOf(c, g), Get(expected, g.expected), Given(lib, g, actual), g.isDate, "");
    hide FieldMap, MetricOf, ValueMatches, FieldScored, ActualValue, Given, Count;
  }

  /** A metric none of the first `n` fields has is left alone. */
  lemma {:induction false} OtherMetrics(lib: Library, c: Collection, t: Tally, expected: Record, actual: Record, n: nat,
      metric: string)
    requires n <= |FieldMap(c)|
    requires metric == (if n < |FieldMap(c)| then MetricOf(c, FieldMap(c)[n]) else metric)
    requires n == |FieldMap(c)| ==> forall i :: 0 <= i < n ==> MetricOf(c, FieldMap(c)[i]) != metric
    ensures Count(PairScored(lib, c, t, expected, actual, n).fieldTotal, metric) == Count(t.fieldTotal, metric)
    ensures Count(PairScored(lib, c, t, expected, actual, n).fieldCorrect, metric) == Count(t.fieldCorrect, metric)
  {
    forall i | 0 <= i < n
      ensures MetricOf(c, FieldMap(c)[i]) != metric
    {
      if n < |FieldMap(c)| && MetricOf(c, FieldMap(c)[i]) == metric {
        MetricsDiffer(c, FieldMap(c)[i], c, FieldMap(c)[n]);
        FieldsDiffer(c, i, n);
      }
    }
    hide FieldMap, MetricOf, ValueMatches;
    MetricUntouched(lib, c, t, expected, actual, n, metric);
  }

  lemma {:induction false} MetricUntouched(lib: Library, c: Collection, t: Tally, expected: Record, actual: Record,
      n: nat, metric: string)
    requires n <= |FieldMap(c)| && forall i :: 0 <= i < n ==> MetricOf(c, FieldMap(c)[i]) != metric
    ensures Count(PairScored(lib, c, t, expected, actual, n).fieldTotal, metric) == Count(t.fieldTotal, metric)
    ensures Count(PairScored(lib, c, t, expected, actual, n).fieldCorrect, metric) == Count(t.fieldCorrect, metric)
  {
    hide FieldMap, MetricOf, ValueMatches;
    if n > 0 {
      MetricUntouched(lib, c, t, expected, actual, n - 1, metric);
    }
  }

  /** A matched pair in which the field is compared, and one in which it is compared and right. */
  predicate ComparedAt(lib: Library, p: Problem, f: ScoredField, pair: (nat, nat)) {
    pair.0 < |p.expected| && pair.1 < |p.actual| && f.expected in p.expected[pair.0]
  }

  predicate RightAt(lib: Library, p: Problem, f: ScoredField, pair: (nat, nat)) {
    ComparedAt(lib, p, f, pair)
    && ValueMatches(lib, p.expected[pair.0][f.expected], Given(lib, f, p.actual[pair.1]), f.isDate)
  }

  /** What the matched pairs of a collection add to the metric of a field: as many comparisons as there are pairs whose
      expected record has the field, and as many matches as there are pairs in which it is right. */
  lemma {:induction false} MatchesComeTo(lib: Library, p: Problem, c: Collection, t: Tally, matches: seq<(nat, nat)>,
      f: ScoredField)
    requires InRange(p, matches) && f in FieldMap(c)
    ensures var (u, metric) := (MatchesScored(lib, p, c, t, matches), MetricOf(c, f));
      && Count(u.fieldTotal, metric) ==
           Count(t.fieldTotal, metric) + HowMany(matches, pair => ComparedAt(lib, p, f, pair))
      && Count(u.fieldCorrect, metric) ==
           Count(t.fieldCorrect, metric) + HowMany(matches, pair => RightAt(lib, p, f, pair))
    decreases |matches|
  {
    if matches != [] {
      var n := |matches| - 1;
      MatchesComeTo(lib, p, c, t, matches[..n], f);
      OneMoreMatch(lib, p, c, t, matches, f);
      HowManyGrows(matches, pair => ComparedAt(lib, p, f, pair));
      HowManyGrows(matches, pair => RightAt(lib, p, f, pair));
      hide FieldMap, MetricOf, MatchesScored, ComparedAt, RightAt, HowMany, Count;
    }
  }

  lemma OneMoreMatch(lib: Library, p: Problem, c: Collection, t: Tally, matches: seq<(nat, nat)>, f: ScoredField)
    requires matches != [] && InRange(p, matches) && f in FieldMap(c)
    ensures Compared(MatchesScored(lib, p, c, t, matches[..|matches| - 1]), MatchesScored(lib, p, c, t, matches),
      MetricOf(c, f), ComparedAt(lib, p, f, matches[|matches| - 1]), RightAt(lib, p, f, matches[|matches| - 1]))
  {
    var (e, a) := matches[|matches| - 1];
    var i :| 0 <= i < |FieldMap(c)| && FieldMap(c)[i] == f;
    PairComesTo(lib, c, MatchesScored(lib, p, c, t, matches[..|matches| - 1]), p.expected[e], p.actual[a],
      |FieldMap(c)|, i);
    hide FieldMap, MetricOf, ValueMatches, Given, PairScored;
  }

  /** The metric under which a profile field is counted. */
  function ProfileMetric(k: nat): string
    requires k < |PROFILE_FIELDS|
  {
    "profile." + PROFILE_FIELDS[k]
  }

  lemma ProfileMetricsDiffer(i: nat, j: nat)
    requires i < |PROFILE_FIELDS| && j < |PROFILE_FIELDS| && ProfileMetric(i) == ProfileMetric(j)
    ensures i == j
  {
    assert ProfileMetric(i)[8..] == PROFILE_FIELDS[i] && ProfileMetric(j)[8..] == PROFILE_FIELDS[j];
    assert |"full_name"| == 9 && |"email"| == 5 && |"phone"| == 5 && |"professional_headline"| == 21;
    assert "email"[0] == 'e' && "phone"[0] == 'p';
  }

  /** What a fixture's profile adds to the metric of a field: one comparison if the expected profile has it. */
  lemma {:induction false} ProfileComesTo(lib: Library, t: Tally, expected: Record, actual: Record, n: nat, i: nat)
    requires i < |PROFILE_FIELDS| && n <= |PROFILE_FIELDS|
    ensures var (u, field) := (ProfileScored(lib, t, expected, actual, n), PROFILE_FIELDS[i]);
      var compared := i < n && field in expected;
      Compared(t, u, ProfileMetric(i), compared,
        compared && ValueMatches(lib, expected[field], if field in actual then actual[field] else Null, false))
  {
    if n > 0 {
      ProfileComesTo(lib, t, expected, actual, n - 1, i);
      var before, last := ProfileScored(lib, t, expected, actual, n - 1), PROFILE_FIELDS[n - 1];
      if ProfileMetric(n - 1) == ProfileMetric(i) {
        ProfileMetricsDiffer(n - 1, i);
      }
      OneComparison(lib, before, ProfileMetric(n - 1), Get(expected, last), Get(actual, last), false, ProfileMetric(i));
      hide ValueMatches, FieldScored;
    }
  }

  // ----- a whole fixture, metric by metric

  /** Both counts of the metric are the same. */
  predicate SameMetric(t: Tally, u: Tally, metric: string) {
    Count(u.fieldTotal, metric) == Count(t.fieldTotal, metric)
    && Count(u.fieldCorrect, metric) == Count(t.fieldCorrect, metric)
  }

  /** The matched pairs of a collection of the fixture. */
  ghost function PairsOf(lib: Library, expected: Document, parsed: Document, c: Collection): seq<(nat, nat)> {
    Pairs(Matching(FixtureProblem(lib, expected, parsed, c)))
  }

  function FixtureProblem(lib: Library, expected: Document, parsed: Document, c: Collection): Problem {
    ProblemOf(lib, c, RecordsOf(expected, c), RecordsOf(parsed, c))
  }

  /** The metric has gained the comparisons and the matches of the collection's pairs. */
  ghost predicate PairsCompared(lib: Library, expected: Document, parsed: Document, c: Collection, f: ScoredField,
      t: Tally, u: Tally)
  {
    var (p, pairs) := (FixtureProblem(lib, expected, parsed, c), PairsOf(lib, expected, parsed, c));
    && Count(u.fieldTotal, MetricOf(c, f)) ==
         Count(t.fieldTotal, MetricOf(c, f)) + HowMany(pairs, pair => ComparedAt(lib, p, f, pair))
    && Count(u.fieldCorrect, MetricOf(c, f)) ==
         Count(t.fieldCorrect, MetricOf(c, f)) + HowMany(pairs, pair => RightAt(lib, p, f, pair))
  }

  lemma OwnMetrics(lib: Library, expected: Document, parsed: Document, c: Collection, f: ScoredField, t: Tally)
    requires f in FieldMap(c)
    ensures PairsCompared(lib, expected, parsed, c, f, t,
      CollectionScored(lib, c, RecordsOf(expected, c), RecordsOf(parsed, c), t))
  {
    hide *;
    var e, a := RecordsOf(expected, c), RecordsOf(parsed, c);
    var counted := CollectionCounted(lib, c, e, a, t);
    var u := CollectionScored(lib, c, e, a, t);
    CountingLeaves(lib, c, e, a, t, MetricOf(c, f));
    PairsAreCompared(lib, expected, parsed, c, f, t);
    SameAtFirst(u, MetricOf(c, f));
    StagesJoin(lib, expected, parsed, c, f, t, counted, u, u);
  }

  lemma PairsAreCompared(lib: Library, expected: Document, parsed: Document, c: Collection, f: ScoredField, t: Tally)
    requires f in FieldMap(c)
    ensures var (e, a) := (RecordsOf(expected, c), RecordsOf(parsed, c));
      PairsCompared(lib, expected, parsed, c, f, CollectionCounted(lib, c, e, a, t), CollectionScored(lib, c, e, a, t))
  {
    hide FieldMap, MetricOf, Matching, MatchesScored, CollectionCounted, CollectionScored, HowMany, RecordsOf, Count,
      ComparedAt, RightAt, PairsOf, FixtureProblem, InRange;
    ScoredByMatches(lib, expected, parsed, c, t);
    MatchesComeTo(lib, FixtureProblem(lib, expected, parsed, c), c,
      CollectionCounted(lib, c, RecordsOf(expected, c), RecordsOf(parsed, c), t), PairsOf(lib, expected, parsed, c), f);
  }

  lemma ScoredByMatches(lib: Library, expected: Document, parsed: Document, c: Collection, t: Tally)
    ensures var (e, a) := (RecordsOf(expected, c), RecordsOf(parsed, c));
      var (p, pairs) := (FixtureProblem(lib, expected, parsed, c), PairsOf(lib, expected, parsed, c));
      && InRange(p, pairs)
      && CollectionScored(lib, c, e, a, t) == MatchesScored(lib, p, c, CollectionCounted(lib, c, e, a, t), pairs)
  {
    ChosenInRange(FixtureProblem(lib, expected, parsed, c), Matching(FixtureProblem(lib, expected, parsed, c)));
    hide Matching, MatchesScored, CollectionCounted, RecordsOf;
  }

  lemma CountingLeaves(lib: Library, c: Collection, expected: seq<Record>, actual: seq<Record>, t: Tally,
      metric: string)
    ensures SameMetric(t, CollectionCounted(lib, c, expected, actual, t), metric)
  {
    RecordsComeTo(lib, c, expected, actual, t);
    hide CollectionCounted, Matching;
  }

  lemma {:induction false} MatchesLeave(lib: Library, p: Problem, c: Collection, t: Tally, matches: seq<(nat, nat)>,
      metric: string)
    requires InRange(p, matches) && forall i :: 0 <= i < |FieldMap(c)| ==> MetricOf(c, FieldMap(c)[i]) != metric
    ensures SameMetric(t, MatchesScored(lib, p, c, t, matches), metric)
    decreases |matches|
  {
    hide FieldMap, MetricOf, PairScored;
    if matches != [] {
      var n := |matches| - 1;
      var (e, a) := matches[n];
      MatchesLeave(lib, p, c, t, matches[..n], metric);
      MetricUntouched(lib, c, MatchesScored(lib, p, c, t, matches[..n]), p.expected[e], p.actual[a], |FieldMap(c)|,
        metric);
    }
  }

  lemma OtherCollectionLeaves(lib: Library, c: Collection, expected: seq<Record>, actual: seq<Record>, t: Tally,
      metric: string)
    requires forall i :: 0 <= i < |FieldMap(c)| ==> MetricOf(c, FieldMap(c)[i]) != metric
    ensures SameMetric(t, CollectionScored(lib, c, expected, actual, t), metric)
  {
    var p := ProblemOf(lib, c, expected, actual);
    ChosenInRange(p, Matching(p));
    RecordsComeTo(lib, c, expected, actual, t);
    MatchesLeave(lib, p, c, CollectionCounted(lib, c, expected, actual, t), Pairs(Matching(p)), metric);
    hide FieldMap, MetricOf, Matching, MatchesScored, CollectionCounted;
  }

  lemma CollectionMetricsDiffer(c: Collection, f: ScoredField, d: Collection)
    requires c != d
    ensures forall i :: 0 <= i < |FieldMap(d)| ==> MetricOf(d, FieldMap(d)[i]) != MetricOf(c, f)
  {
    forall i | 0 <= i < |FieldMap(d)|
      ensures MetricOf(d, FieldMap(d)[i]) != MetricOf(c, f)
    {
      if MetricOf(d, FieldMap(d)[i]) == MetricOf(c, f) {
        MetricsDiffer(d, FieldMap(d)[i], c, f);
      }
    }
  }

  /** Stages that leave the metric alone may come before and after. */
  lemma StagesJoin(lib: Library, expected: Document, parsed: Document, c: Collection, f: ScoredField, t: Tally,
      before: Tally, after: Tally, u: Tally)
    requires SameMetric(t, before, MetricOf(c, f)) && SameMetric(after, u, MetricOf(c, f))
    requires PairsCompared(lib, expected, parsed, c, f, before, after)
    ensures PairsCompared(lib, expected, parsed, c, f, t, u)
  {
    hide PairsOf, HowMany, MetricOf, FixtureProblem, Count;
  }

  lemma SameTwice(t: Tally, before: Tally, u: Tally, metric: string)
    requires SameMetric(t, before, metric) && SameMetric(before, u, metric)
    ensures SameMetric(t, u, metric)
  {
  }

  lemma SameAtFirst(t: Tally, metric: string)
    ensures SameMetric(t, t, metric)
  {
  }

  lemma NextCollection(lib: Library, expected: Document, parsed: Document, t: Tally, n: nat)
    requires 0 < n <= |COLLECTIONS|
    ensures CollectionsScored(lib, expected, parsed, t, 0) == t
    ensures CollectionsScored(lib, expected, parsed, t, n) ==
      CollectionScored(lib, COLLECTIONS[n - 1], RecordsOf(expected, COLLECTIONS[n - 1]),
        RecordsOf(parsed, COLLECTIONS[n - 1]), CollectionsScored(lib, expected, parsed, t, n - 1))
  {
    hide CollectionScored, RecordsOf;
  }

  lemma NextLeaves(lib: Library, expected: Document, parsed: Document, t: Tally, n: nat, k: nat, f: ScoredField)
    requires 0 < n <= |COLLECTIONS| && k < |COLLECTIONS| && k != n - 1
    ensures SameMetric(CollectionsScored(lib, expected, parsed, t, n - 1),
      CollectionsScored(lib, expected, parsed, t, n), MetricOf(COLLECTIONS[k], f))
  {
    NextCollection(lib, expected, parsed, t, n);
    ListedOnce();
    var c, d := COLLECTIONS[k], COLLECTIONS[n - 1];
    CollectionMetricsDiffer(c, f, d);
    OtherCollectionLeaves(lib, d, RecordsOf(expected, d), RecordsOf(parsed, d),
      CollectionsScored(lib, expected, parsed, t, n - 1), MetricOf(c, f));
    hide *;
  }

  lemma {:induction false} CollectionsCompare(lib: Library, expected: Document, parsed: Document, t: Tally, n: nat,
      k: nat, f: ScoredField)
    requires n <= |COLLECTIONS| && k < |COLLECTIONS| && f in FieldMap(COLLECTIONS[k])
    ensures var (u, c) := (CollectionsScored(lib, expected, parsed, t, n), COLLECTIONS[k]);
      if k < n then PairsCompared(lib, expected, parsed, c, f, t, u) else SameMetric(t, u, MetricOf(c, f))
  {
    hide *;
    var c := COLLECTIONS[k];
    SameAtFirst(t, MetricOf(c, f));
    if n == 0 {
      NextCollection(lib, expected, parsed, t, 1);
    } else {
      var before, u := CollectionsScored(lib, expected, parsed, t, n - 1),
        CollectionsScored(lib, expected, parsed, t, n);
      CollectionsCompare(lib, expected, parsed, t, n - 1, k, f);
      SameAtFirst(u, MetricOf(c, f));
      if k == n - 1 {
        NextCollection(lib, expected, parsed, t, n);
        OwnMetrics(lib, expected, parsed, c, f, before);
        StagesJoin(lib, expected, parsed, c, f, t, before, u, u);
      } else {
        NextLeaves(lib, expected, parsed, t, n, k, f);
        if k < n - 1 {
          StagesJoin(lib, expected, parsed, c, f, t, t, before, u);
        } else {
          SameTwice(t, before, u, MetricOf(c, f));
        }
      }
    }
  }

  lemma ProfileIsNoCollection(c: Collection, f: ScoredField, i: nat)
    requires i < |PROFILE_FIELDS|
    ensures ProfileMetric(i) != MetricOf(c, f)
  {
    assert ProfileMetric(i) == "profile" + "." + PROFILE_FIELDS[i];
    NamesDiffer(c, c);
    assert '.' !in "profile" && |"profile"| == 7 && "profile" != CollectionName(c);
    if ProfileMetric(i) == MetricOf(c, f) {
      DotsApart("profile", PROFILE_FIELDS[i], CollectionName(c), f.expected);
    }
  }

  lemma {:induction false} ProfileLeaves(lib: Library, t: Tally, expected: Record, actual: Record, n: nat,
      metric: string)
    requires n <= |PROFILE_FIELDS| && forall i :: 0 <= i < |PROFILE_FIELDS| ==> ProfileMetric(i) != metric
    ensures SameMetric(t, ProfileScored(lib, t, expected, actual, n), metric)
  {
    hide ValueMatches;
    if n > 0 {
      ProfileLeaves(lib, t, expected, actual, n - 1, metric);
      assert ProfileMetric(n - 1) != metric;
    }
  }

  lemma {:induction false} CollectionsLeave(lib: Library, expected: Document, parsed: Document, t: Tally, n: nat,
      i: nat)
    requires n <= |COLLECTIONS| && i < |PROFILE_FIELDS|
    ensures SameMetric(t, CollectionsScored(lib, expected, parsed, t, n), ProfileMetric(i))
  {
    if n > 0 {
      CollectionsLeave(lib, expected, parsed, t, n - 1, i);
      var d := COLLECTIONS[n - 1];
      forall j | 0 <= j < |FieldMap(d)|
        ensures MetricOf(d, FieldMap(d)[j]) != ProfileMetric(i)
      {
        ProfileIsNoCollection(d, FieldMap(d)[j], i);
      }
      OtherCollectionLeaves(lib, d, RecordsOf(expected, d), RecordsOf(parsed, d),
        CollectionsScored(lib, expected, parsed, t, n - 1), ProfileMetric(i));
      hide FieldMap, MetricOf, CollectionScored, RecordsOf, ProfileMetric, Count;
    }
  }

  /** What a scored fixture adds to the metric of a field of a collection: the comparisons and matches of that
      collection's pairs. */
  lemma FixtureComparesFields(lib: Library, expected: Document, parsed: Document, t: Tally, k: nat, f: ScoredField)
    requires k < |COLLECTIONS| && f in FieldMap(COLLECTIONS[k])
    ensures PairsCompared(lib, expected, parsed, COLLECTIONS[k], f, t, FixtureScored(lib, expected, parsed, t))
  {
    var metric := MetricOf(COLLECTIONS[k], f);
    forall i: nat | i < |PROFILE_FIELDS|
      ensures ProfileMetric(i) != metric
    {
      ProfileIsNoCollection(COLLECTIONS[k], f, i);
    }
    var profile := ProfileScored(lib, t, expected.profile, parsed.profile, |PROFILE_FIELDS|);
    ProfileLeaves(lib, t, expected.profile, parsed.profile, |PROFILE_FIELDS|, metric);
    CollectionsCompare(lib, expected, parsed, profile, |COLLECTIONS|, k, f);
    SkillsAreLast(lib, expected, parsed, t, metric);
    hide *;
    StagesJoin(lib, expected, parsed, COLLECTIONS[k], f, t, profile,
      CollectionsScored(lib, expected, parsed, profile, |COLLECTIONS|), FixtureScored(lib, expected, parsed, t));
  }

  lemma SkillsAreLast(lib: Library, expected: Document, parsed: Document, t: Tally, metric: string)
    ensures SameMetric(
      CollectionsScored(lib, expected, parsed,
        ProfileScored(lib, t, expected.profile, parsed.profile, |PROFILE_FIELDS|), |COLLECTIONS|),
      FixtureScored(lib, expected, parsed, t), metric)
  {
    SkillsComeTo(lib, expected, parsed, CollectionsScored(lib, expected, parsed,
      ProfileScored(lib, t, expected.profile, parsed.profile, |PROFILE_FIELDS|), |COLLECTIONS|));
    hide ProfileScored, CollectionsScored, SkillsScored;
  }

  /** ... and to the metric of a profile field: one comparison if the expected profile has the field, and one match if
      the parsed one has a value that matches. */
  lemma FixtureComparesProfile(lib: Library, expected: Document, parsed: Document, t: Tally, i: nat)
    requires i < |PROFILE_FIELDS|
    ensures var (field, e, a) := (PROFILE_FIELDS[i], expected.profile, parsed.profile);
      Compared(t, FixtureScored(lib, expected, parsed, t), ProfileMetric(i), field in e,
        field in e && ValueMatches(lib, e[field], if field in a then a[field] else Null, false))
  {
    var profile := ProfileScored(lib, t, expected.profile, parsed.profile, |PROFILE_FIELDS|);
    var (field, e, a) := (PROFILE_FIELDS[i], expected.profile, parsed.profile);
    ProfileComesTo(lib, t, e, a, |PROFILE_FIELDS|, i);
    CollectionsLeave(lib, expected, parsed, profile, |COLLECTIONS|, i);
    SkillsAreLast(lib, expected, parsed, t, ProfileMetric(i));
    SameTwice(profile, CollectionsScored(lib, expected, parsed, profile, |COLLECTIONS|),
      FixtureScored(lib, expected, parsed, t), ProfileMetric(i));
    SameIsUncompared(profile, FixtureScored(lib, expected, parsed, t), ProfileMetric(i));
    hide *;
    ThenCompared(t, profile, FixtureScored(lib, expected, parsed, t), ProfileMetric(i), field in e,
      field in e && ValueMatches(lib, e[field], if field in a then a[field] else Null, false));
  }

  lemma SameIsUncompared(t: Tally, u: Tally, metric: string)
    requires SameMetric(t, u, metric)
    ensures Compared(t, u, metric, false, false)
  {
  }

  // ----- the date metrics of the report

  lemma {:induction false} DatesAmongExactly(c: Collection, fields: seq<ScoredField>, metric: string)
    ensures metric in DatesAmong(c, fields) <==>
      exists i :: 0 <= i < |fields| && fields[i].isDate && metric == MetricOf(c, fields[i])
  {
    hide MetricOf;
    if fields != [] {
      DatesAmongExactly(c, fields[1..], metric);
      if i :| 0 <= i < |fields| && fields[i].isDate && metric == MetricOf(c, fields[i]) {
        assert i > 0 ==> fields[1..][i - 1] == fields[i];
      }
      if i :| 0 <= i < |fields[1..]| && fields[1..][i].isDate && metric == MetricOf(c, fields[1..][i]) {
        assert fields[i + 1] == fields[1..][i];
      }
    }
  }

  predicate IsDateMetric(c: Collection, i: int, metric: string) {
    0 <= i < |FieldMap(c)| && FieldMap(c)[i].isDate && metric == MetricOf(c, FieldMap(c)[i])
  }

  /** The metrics that count as dates are those of the date fields of the listed collections. */
  lemma {:induction false} DateMetricsExactly(cs: seq<Collection>, metric: string)
    ensures metric in DateMetrics(cs) <==>
      exists k, i :: 0 <= k < |cs| && IsDateMetric(cs[k], i, metric)
  {
    hide MetricOf, FieldMap, DatesAmong;
    if cs != [] {
      DatesAmongExactly(cs[0], FieldMap(cs[0]), metric);
      DateMetricsExactly(cs[1..], metric);
      if k, i :| 0 <= k < |cs| && IsDateMetric(cs[k], i, metric) {
        assert k > 0 ==> IsDateMetric(cs[1..][k - 1], i, metric);
      }
      if k, i :| 0 <= k < |cs[1..]| && IsDateMetric(cs[1..][k], i, metric) {
        assert IsDateMetric(cs[k + 1], i, metric);
      }
      if i :| 0 <= i < |FieldMap(cs[0])| && FieldMap(cs[0])[i].isDate && metric == MetricOf(cs[0], FieldMap(cs[0])[i]) {
        assert IsDateMetric(cs[0], i, metric);
      }
    }
  }
}
