/** Counting the places of a list at which something holds. */
module Counting {
  function HowMany<T>(s: seq<T>, holds: T -> bool): nat {
    |set k | 0 <= k < |s| && holds(s[k])|
  }

  lemma HowManyGrows<T>(s: seq<T>, holds: T -> bool)
    requires s != []
    ensures var n := |s| - 1; HowMany(s, holds) == HowMany(s[..n], holds) + if holds(s[n]) then 1 else 0
  {
    var n := |s| - 1;
    var before := set k | 0 <= k < n && holds(s[..n][k]);
    assert (set k | 0 <= k < |s| && holds(s[k])) == before + if holds(s[n]) then {n} else {};
  }
}

/** The running totals of scripts/qualify_resume_parser.py, and what always balances in them. */
module ScoringTotals {
  datatype Collection =
    | Employments | Education | Internships | Freelance | GigPlatforms | Certifications | Projects | Skills

  type Counter<K(==)> = map<K, nat>

  function Count<K>(m: Counter<K>, k: K): nat {
    if k in m then m[k] else 0
  }

  function Bump<K>(m: Counter<K>, k: K, n: nat): Counter<K> {
    m[k := Count(m, k) + n]
  }

  const ALL_COLLECTIONS: seq<Collection> :=
    [Employments, Education, Internships, Freelance, GigPlatforms, Certifications, Projects, Skills]

  function SumOver(m: Counter<Collection>, keys: seq<Collection>): nat {
    if keys == [] then 0 else Count(m, keys[0]) + SumOver(m, keys[1..])
  }

  /** `sum(counter.values())`; the counters hold no other keys. */
  function CounterSum(m: Counter<Collection>): nat {
    SumOver(m, ALL_COLLECTIONS)
  }

  lemma {:induction false} BumpAddsOver(m: Counter<Collection>, keys: seq<Collection>, c: Collection, n: nat)
    requires forall i, j :: 0 <= i < j < |keys| ==> keys[i] != keys[j]
    ensures SumOver(Bump(m, c, n), keys) == SumOver(m, keys) + if c in keys then n else 0
  {
    if keys != [] {
      BumpAddsOver(m, keys[1..], c, n);
    }
  }

  lemma BumpAdds(m: Counter<Collection>, c: Collection, n: nat)
    ensures CounterSum(Bump(m, c, n)) == CounterSum(m) + n
  {
    BumpAddsOver(m, ALL_COLLECTIONS, c, n);
    assert c in ALL_COLLECTIONS by {
      var k := match c case Employments => 0 case Education => 1 case Internships => 2 case Freelance => 3
                       case GigPlatforms => 4 case Certifications => 5 case Projects => 6 case Skills => 7;
      assert ALL_COLLECTIONS[k] == c;
    }
  }

  /** A sum over pointwise smaller counts is smaller. */
  lemma {:induction false} SumMonotone(m: Counter<Collection>, n: Counter<Collection>, keys: seq<Collection>)
    requires forall c :: Count(m, c) <= Count(n, c)
    ensures SumOver(m, keys) <= SumOver(n, keys)
  {
    if keys != [] {
      SumMonotone(m, n, keys[1..]);
    }
  }

  /** The counters; `repeats` is history: how often a matched skill name was predicted again. */
  datatype Tally = Tally(
    expected: Counter<Collection>, predicted: Counter<Collection>, matched: Counter<Collection>,
    hallucinated: nat, omitted: nat, repeats: nat, duplicates: nat, predictedClaims: nat, invalidClaims: nat,
    fieldTotal: Counter<string>, fieldCorrect: Counter<string>, catastrophic: nat)

  const EMPTY_TALLY := Tally(map[], map[], map[], 0, 0, 0, 0, 0, 0, map[], map[], 0)

  /** What holds of the totals at every moment, even when an exception cuts a fixture short. */
  ghost predicate Balanced(t: Tally) {
    && CounterSum(t.matched) + t.omitted == CounterSum(t.expected)
    && CounterSum(t.matched) + t.hallucinated + t.repeats == CounterSum(t.predicted)
    && (forall c :: Count(t.matched, c) <= Count(t.expected, c) && Count(t.matched, c) <= Count(t.predicted, c))
    && t.duplicates <= CounterSum(t.predicted)
    && t.invalidClaims <= t.predictedClaims <= CounterSum(t.predicted)
    && (forall f :: Count(t.fieldCorrect, f) <= Count(t.fieldTotal, f))
  }

  /** One collection's counts added: `m` of `e` expected and `a` predicted records matched, `r` of the rest repeats. */
  function Recorded(t: Tally, c: Collection, e: nat, a: nat, m: nat, r: nat): Tally
    requires m <= e && m + r <= a
  {
    t.(expected := Bump(t.expected, c, e), predicted := Bump(t.predicted, c, a), matched := Bump(t.matched, c, m),
       omitted := t.omitted + (e - m), hallucinated := t.hallucinated + (a - m - r), repeats := t.repeats + r)
  }

  lemma RecordingBalances(t: Tally, c: Collection, e: nat, a: nat, m: nat, r: nat)
    requires Balanced(t) && m <= e && m + r <= a
    ensures Balanced(Recorded(t, c, e, a, m, r))
    ensures CounterSum(Recorded(t, c, e, a, m, r).predicted) == CounterSum(t.predicted) + a
  {
    BumpAdds(t.expected, c, e);
    BumpAdds(t.predicted, c, a);
    BumpAdds(t.matched, c, m);
    var u := Recorded(t, c, e, a, m, r);
    forall k
      ensures Count(u.matched, k) <= Count(u.expected, k) && Count(u.matched, k) <= Count(u.predicted, k)
    {
      assert Count(t.matched, k) <= Count(t.expected, k) && Count(t.matched, k) <= Count(t.predicted, k);
    }
  }

  // ----- percentages

  /** What `round(100.0 * n / d, 2)` gives, in hundredths of a percent: a nearest one, however ties and binary fractions
      fall. */
  type Rounding = (nat, nat) -> int

  predicate IsNearest(k: int, n: nat, d: nat)
    requires d > 0
  {
    -0.5 <= k as real - 10000.0 * (n as real) / (d as real) <= 0.5
  }

  ghost predicate Rounds(round: Rounding) {
    forall n: nat, d: nat :: d > 0 ==> IsNearest(round(n, d), n, d)
  }

  function Percentage(n: nat, d: nat, round: Rounding): real {
    if d == 0 then 100.0 else round(n, d) as real / 100.0
  }

  /** The share lies exactly between two hundredths of a percent. */
  predicate Halfway(n: nat, d: nat)
    requires d > 0
  {
    var x := 10000.0 * (n as real) / (d as real);
    x - x.Floor as real == 0.5
  }

  lemma PercentageInRange(n: nat, d: nat, round: Rounding)
    requires n <= d && Rounds(round)
    ensures 0.0 <= Percentage(n, d, round) <= 100.0
  {
    if d > 0 {
      ShareInRange(n as real, d as real);
      assert IsNearest(round(n, d), n, d);
    }
  }

  lemma ShareInRange(n: real, d: real)
    requires 0.0 <= n <= d && d > 0.0
    ensures 0.0 <= 10000.0 * n / d <= 10000.0
  {
    assert 10000.0 * n <= 10000.0 * d;
    assert 10000.0 * d / d == 10000.0;
  }

  /** Complementary shares of one total round to percentages that add up to 100 within a hundredth,
      and exactly unless the shares lie halfway. */
  lemma ComplementsAddUp(n: nat, k: nat, d: nat, round: Rounding)
    requires n + k == d && d > 0 && Rounds(round)
    ensures -0.01 <= Percentage(n, d, round) + Percentage(k, d, round) - 100.0 <= 0.01
    ensures !Halfway(n, d) ==> Percentage(n, d, round) + Percentage(k, d, round) == 100.0
  {
    SharesAddUp(n as real, k as real, d as real);
    assert IsNearest(round(n, d), n, d) && IsNearest(round(k, d), k, d);
    NearestOfComplements(10000.0 * (n as real) / (d as real), 10000.0 * (k as real) / (d as real), round(n, d),
      round(k, d));
  }

  lemma SharesAddUp(n: real, k: real, d: real)
    requires n + k == d && d > 0.0
    ensures 10000.0 * n / d + 10000.0 * k / d == 10000.0
  {
    assert 10000.0 * n / d == 10000.0 * (n / d) && 10000.0 * k / d == 10000.0 * (k / d);
    assert n / d + k / d == (n + k) / d;
  }

  lemma NearestOfComplements(x: real, y: real, i: int, j: int)
    requires x + y == 10000.0 && -0.5 <= i as real - x <= 0.5 && -0.5 <= j as real - y <= 0.5
    ensures -1 <= i + j - 10000 <= 1
    ensures x - x.Floor as real != 0.5 ==> i + j == 10000
  {
    var sum := i as real + j as real - 10000.0;
    assert sum == (i + j - 10000) as real;
    if x - x.Floor as real != 0.5 {
      NotAtHalf(x, i);
    }
  }

  lemma NotAtHalf(x: real, i: int)
    requires x - x.Floor as real != 0.5 && -0.5 <= i as real - x <= 0.5
    ensures -0.5 < i as real - x < 0.5
  {
    assert x.Floor == i || x.Floor == i - 1;
  }

  /** Ties downwards. */
  function HalfDown(n: nat, d: nat): int {
    if d == 0 then 0
    else
      var x := 10000.0 * (n as real) / (d as real);
      if x - x.Floor as real <= 0.5 then x.Floor else x.Floor + 1
  }

  /** The hundredth is needed: 3 and 3997 of 4000 lie halfway, and both may be rounded down, as binary fractions make
      them. */
  lemma SumCanMiss()
    ensures Rounds(HalfDown) && Halfway(3, 4000)
    ensures Percentage(3, 4000, HalfDown) + Percentage(3997, 4000, HalfDown) == 99.99
  {
    forall n: nat, d: nat | d > 0
      ensures IsNearest(HalfDown(n, d), n, d)
    {
    }
    assert 10000.0 * 3.0 / 4000.0 == 7.5 && 7.5.Floor == 7;
    assert 10000.0 * 3997.0 / 4000.0 == 9992.5 && 9992.5.Floor == 9992;
  }

  datatype Overall = Overall(
    recall: real, precision: real, dateAccuracy: real, hallucination: real, duplicate: real, omission: real,
    invalidImport: real, catastrophicFailure: real)

  function CountAll(m: Counter<string>, keys: seq<string>): nat {
    if keys == [] then 0 else Count(m, keys[0]) + CountAll(m, keys[1..])
  }

  /** The "overall" block of `build_report`; `dateKeys` are the date metrics among the scored fields. */
  function BuildOverall(t: Tally, fixtures: nat, dateKeys: seq<string>, round: Rounding): Overall {
    var expected, predicted, matched := CounterSum(t.expected), CounterSum(t.predicted), CounterSum(t.matched);
    Overall(
      recall := Percentage(matched, expected, round),
      precision := Percentage(matched, predicted, round),
      dateAccuracy := Percentage(CountAll(t.fieldCorrect, dateKeys), CountAll(t.fieldTotal, dateKeys), round),
      hallucination := Percentage(t.hallucinated, predicted, round),
      duplicate := Percentage(t.duplicates, predicted, round),
      omission := Percentage(t.omitted, expected, round),
      invalidImport := Percentage(t.invalidClaims, t.predictedClaims, round),
      catastrophicFailure := Percentage(t.catastrophic, fixtures, round))
  }

  /** The figure reports `n` out of `d`: within half a hundredth of the exact percentage, and 100 when there is nothing
      to report on. */
  predicate Reports(figure: real, n: nat, d: nat) {
    if d == 0 then figure == 100.0 else -0.005 <= figure - 100.0 * (n as real) / (d as real) <= 0.005
  }

  lemma PercentageReports(n: nat, d: nat, round: Rounding)
    requires Rounds(round)
    ensures Reports(Percentage(n, d, round), n, d)
  {
    if d > 0 {
      assert IsNearest(round(n, d), n, d);
      HundredTimes(n as real, d as real);
    }
  }

  lemma HundredTimes(n: real, d: real)
    requires d > 0.0
    ensures 10000.0 * n / d == 100.0 * (100.0 * n / d)
  {
  }

  /** Which of the totals each figure reports. */
  predicate FiguresReport(o: Overall, t: Tally, fixtures: nat, dateKeys: seq<string>) {
    && Reports(o.recall, CounterSum(t.matched), CounterSum(t.expected))
    && Reports(o.precision, CounterSum(t.matched), CounterSum(t.predicted))
    && Reports(o.dateAccuracy, CountAll(t.fieldCorrect, dateKeys), CountAll(t.fieldTotal, dateKeys))
    && Reports(o.hallucination, t.hallucinated, CounterSum(t.predicted))
    && Reports(o.duplicate, t.duplicates, CounterSum(t.predicted))
    && Reports(o.omission, t.omitted, CounterSum(t.expected))
    && Reports(o.invalidImport, t.invalidClaims, t.predictedClaims)
    && Reports(o.catastrophicFailure, t.catastrophic, fixtures)
  }

  /** Every figure of the report is within half a hundredth of the share it stands for. */
  lemma FiguresAreShares(t: Tally, fixtures: nat, dateKeys: seq<string>, round: Rounding)
    requires Rounds(round)
    ensures FiguresReport(BuildOverall(t, fixtures, dateKeys, round), t, fixtures, dateKeys)
  {
    hide Reports, Percentage, Rounds, CounterSum, CountAll;
    PercentageReports(CounterSum(t.matched), CounterSum(t.expected), round);
    PercentageReports(CounterSum(t.matched), CounterSum(t.predicted), round);
    PercentageReports(CountAll(t.fieldCorrect, dateKeys), CountAll(t.fieldTotal, dateKeys), round);
    PercentageReports(t.hallucinated, CounterSum(t.predicted), round);
    PercentageReports(t.duplicates, CounterSum(t.predicted), round);
    PercentageReports(t.omitted, CounterSum(t.expected), round);
    PercentageReports(t.invalidClaims, t.predictedClaims, round);
    PercentageReports(t.catastrophic, fixtures, round);
  }

  /** All or nothing is reported exactly, whatever the rounding. */
  lemma ExtremesAreExact(n: nat, d: nat, round: Rounding)
    requires Rounds(round) && (n == 0 || n == d)
    ensures Percentage(n, d, round) == if n == d then 100.0 else 0.0
  {
    if d > 0 {
      assert IsNearest(round(n, d), n, d);
      ZeroOrWhole(n as real, d as real);
    }
  }

  lemma ZeroOrWhole(n: real, d: real)
    requires d > 0.0 && (n == 0.0 || n == d)
    ensures 10000.0 * n / d == if n == d then 10000.0 else 0.0
  {
  }

  /** Everything expected was matched and nothing else was predicted. */
  ghost predicate Flawless(t: Tally) {
    && (forall c :: Count(t.matched, c) == Count(t.expected, c) == Count(t.predicted, c))
    && t.omitted == 0 && t.hallucinated == 0 && (forall f :: Count(t.fieldCorrect, f) == Count(t.fieldTotal, f))
  }

  lemma {:induction false} SameSums(m: Counter<Collection>, n: Counter<Collection>, keys: seq<Collection>)
    requires forall c :: Count(m, c) == Count(n, c)
    ensures SumOver(m, keys) == SumOver(n, keys)
  {
    if keys != [] {
      SameSums(m, n, keys[1..]);
    }
  }

  lemma {:induction false} SameCountAll(m: Counter<string>, n: Counter<string>, keys: seq<string>)
    requires forall f :: Count(m, f) == Count(n, f)
    ensures CountAll(m, keys) == CountAll(n, keys)
  {
    if keys != [] {
      SameCountAll(m, n, keys[1..]);
    }
  }

  /** Flawless totals are reported as such; where nothing was predicted, "none of it" reads 100. */
  lemma FlawlessIsReported(t: Tally, fixtures: nat, dateKeys: seq<string>, round: Rounding)
    requires Flawless(t) && Rounds(round)
    ensures var o, none := BuildOverall(t, fixtures, dateKeys, round), CounterSum(t.predicted) == 0;
      && o.recall == 100.0 && o.precision == 100.0 && o.dateAccuracy == 100.0
      && o.omission == (if none then 100.0 else 0.0) && o.hallucination == (if none then 100.0 else 0.0)
  {
    SameSums(t.matched, t.expected, ALL_COLLECTIONS);
    SameSums(t.matched, t.predicted, ALL_COLLECTIONS);
    SameCountAll(t.fieldCorrect, t.fieldTotal, dateKeys);
    var n := CounterSum(t.predicted);
    ExtremesAreExact(n, n, round);
    ExtremesAreExact(0, n, round);
    ExtremesAreExact(CountAll(t.fieldTotal, dateKeys), CountAll(t.fieldTotal, dateKeys), round);
    hide Flawless, Rounds, Percentage, CountAll, SumOver;
  }

  predicate IsPercentage(x: real) {
    0.0 <= x <= 100.0
  }

  lemma {:induction false} CorrectBelowTotal(t: Tally, keys: seq<string>)
    requires Balanced(t)
    ensures CountAll(t.fieldCorrect, keys) <= CountAll(t.fieldTotal, keys)
  {
    if keys != [] {
      CorrectBelowTotal(t, keys[1..]);
    }
  }

  predicate AllPercentages(o: Overall) {
    && IsPercentage(o.recall) && IsPercentage(o.precision) && IsPercentage(o.dateAccuracy)
    && IsPercentage(o.hallucination) && IsPercentage(o.duplicate)
    && IsPercentage(o.omission) && IsPercentage(o.invalidImport) && IsPercentage(o.catastrophicFailure)
  }

  /** Every overall figure is a percentage, and recall and omission make up the whole within a hundredth. */
  lemma OverallIsSound(t: Tally, fixtures: nat, dateKeys: seq<string>, round: Rounding)
    requires Balanced(t) && t.catastrophic <= fixtures && Rounds(round)
    ensures var o := BuildOverall(t, fixtures, dateKeys, round);
      && AllPercentages(o)
      && (CounterSum(t.expected) > 0 ==> -0.01 <= o.recall + o.omission - 100.0 <= 0.01)
  {
    var expected, predicted, matched := CounterSum(t.expected), CounterSum(t.predicted), CounterSum(t.matched);
    CorrectBelowTotal(t, dateKeys);
    SumMonotone(t.matched, t.expected, ALL_COLLECTIONS);
    SumMonotone(t.matched, t.predicted, ALL_COLLECTIONS);
    PercentageInRange(matched, expected, round);
    PercentageInRange(matched, predicted, round);
    PercentageInRange(CountAll(t.fieldCorrect, dateKeys), CountAll(t.fieldTotal, dateKeys), round);
    PercentageInRange(t.hallucinated, predicted, round);
    PercentageInRange(t.duplicates, predicted, round);
    PercentageInRange(t.omitted, expected, round);
    PercentageInRange(t.invalidClaims, t.predictedClaims, round);
    PercentageInRange(t.catastrophic, fixtures, round);
    if expected > 0 {
      ComplementsAddUp(matched, t.omitted, expected, round);
    }
  }
}

/** `score_fixture` and the loop over fixtures; an exception may surface between any two updates of the totals, or in
    the leak scan. */
module ParserScoring {
  import opened Common
  import opened Counting
  import opened Candidates
  import opened RecordMatching
  import opened ScoringTotals

  /** Library behaviour the scoring depends on: text similarity, normalisation, date parsing, import validation. */
  datatype Library = Library(
    similar: Similarity, normalized: Value -> string, date: (Record, string) -> Value,
      unsafeImport: (Collection, Record) -> bool)

  /** When an exception surfaces: never, or after that many steps. */
  datatype Fault = Never | After(steps: nat)

  function Next(f: Fault): (next: Fault)
    ensures f == Never ==> next == Never
  {
    if f.After? && f.steps > 0 then After(f.steps - 1) else f
  }

  datatype Document = Document(profile: Record, records: map<Collection, seq<Record>>, skills: seq<Value>)

  datatype ScoredField = ScoredField(expected: string, actual: string, isDate: bool)

  const PROFILE_FIELDS: seq<string> := ["full_name", "email", "phone", "professional_headline"]

  function IdentityFields(c: Collection): seq<string> {
    match c
    case Employments => ["company_name", "role_title"]
    case Education => ["institution_name", "degree"]
    case Internships => ["company_name", "role"]
    case Freelance => ["client_name", "project_title"]
    case GigPlatforms => ["platform_name", "partner_role"]
    case Certifications => ["title", "issuing_organization"]
    case Projects => ["title"]
    case Skills => []
  }

  const PERIOD: seq<ScoredField> :=
    [ScoredField("start", "start", true), ScoredField("end", "end", true),
      ScoredField("is_current", "is_current", false)]

  function Plain(name: string): ScoredField {
    ScoredField(name, name, false)
  }

  function FieldMap(c: Collection): seq<ScoredField> {
    match c
    case Employments => [Plain("company_name"), Plain("role_title")] + PERIOD
    case Education => [Plain("institution_name"), Plain("degree"), Plain("field_of_study")] + PERIOD
    case Internships => [Plain("company_name"), Plain("role")] + PERIOD
    case Freelance => [Plain("client_name"), Plain("project_title")] + PERIOD
    case GigPlatforms => [Plain("platform_name"), Plain("partner_role")] + PERIOD
    case Certifications =>
      [Plain("title"), Plain("issuing_organization"), ScoredField("issued", "issued", true),
        ScoredField("expiry", "expiry", true)]
    case Projects => [Plain("title"), Plain("url")]
    case Skills => []
  }

  function CollectionName(c: Collection): string {
    match c
    case Employments => "employments"
    case Education => "education"
    case Internships => "internships"
    case Freelance => "freelance"
    case GigPlatforms => "gig_platforms"
    case Certifications => "certifications"
    case Projects => "projects"
    case Skills => "skills"
  }

  const COLLECTIONS: seq<Collection> := [Employments, Education, Internships, Freelance, GigPlatforms, Certifications,
    Projects]

  /** The metric under which a field of a collection is counted. */
  function MetricOf(c: Collection, f: ScoredField): string {
    CollectionName(c) + "." + f.expected
  }

  /** The metrics of date fields; those that never came up count nothing. */
  function DateMetrics(cs: seq<Collection>): seq<string> {
    if cs == [] then [] else DatesAmong(cs[0], FieldMap(cs[0])) + DateMetrics(cs[1..])
  }

  function DatesAmong(c: Collection, fields: seq<ScoredField>): seq<string> {
    if fields == [] then []
    else (if fields[0].isDate then [MetricOf(c, fields[0])] else []) + DatesAmong(c, fields[1..])
  }

  function Printed(v: Value): string {
    match v
    case Null => "None"
    case Text(t) => t
    case Flag(b) => if b then "True" else "False"
  }

  function ValueMatches(lib: Library, expected: Value, actual: Value, isDate: bool): bool {
    match expected
    case Null => actual == Null || actual == Text("")
    case Flag(b) => if b then actual == Flag(true) else actual == Flag(false) || actual == Null
    case Text(_) =>
      if actual == Null then false
      else if isDate then Printed(expected) <= Printed(actual)
      else lib.similar(expected, actual) >= 0.92
  }

  /** When two values match. A value matches itself; nothing expected is met by nothing; a missing value meets only that
      or a false flag; a date is met by any date that begins with it; any other text by one that is alike enough. */
  lemma ValuesMatch(lib: Library, expected: Value, actual: Value, isDate: bool, text: string, rest: string)
    requires Reflexive(lib.similar)
    ensures ValueMatches(lib, expected, expected, isDate)
    ensures ValueMatches(lib, Null, actual, isDate) <==> actual in [Null, Text("")]
    ensures ValueMatches(lib, expected, Null, isDate) <==> expected in [Null, Flag(false)]
    ensures forall b :: ValueMatches(lib, Flag(b), actual, isDate) <==> actual == Flag(b) || (!b && actual == Null)
    ensures ValueMatches(lib, Text(text), Text(text + rest), true)
    ensures ValueMatches(lib, Text(text + rest), Text(text), true) <==> rest == ""
    ensures ValueMatches(lib, Text(text), Text(rest), false) <==> lib.similar(Text(text), Text(rest)) >= 0.92
  {
    assert rest == "" ==> text + rest == text;
  }

  function RecordsOf(d: Document, c: Collection): seq<Record> {
    if c in d.records then d.records[c] else []
  }

  function KeyOf(lib: Library, c: Collection, r: Record): Key {
    var fields := IdentityFields(c);
    seq(|fields|, i requires 0 <= i < |fields| => lib.normalized(Get(r, fields[i])))
  }

  function KeysOf(lib: Library, c: Collection, records: seq<Record>): seq<Key> {
    seq(|records|, i requires 0 <= i < |records| => KeyOf(lib, c, records[i]))
  }

  /** Two records repeat each other exactly when their identity fields read the same, one by one. */
  lemma SameKeyExactly(lib: Library, c: Collection, r: Record, q: Record)
    ensures KeyOf(lib, c, r) == KeyOf(lib, c, q) <==>
      forall f :: f in IdentityFields(c) ==> lib.normalized(Get(r, f)) == lib.normalized(Get(q, f))
  {
    var fields := IdentityFields(c);
    hide IdentityFields;
    if KeyOf(lib, c, r) == KeyOf(lib, c, q) {
      forall f | f in fields
        ensures lib.normalized(Get(r, f)) == lib.normalized(Get(q, f))
      {
        var i :| 0 <= i < |fields| && fields[i] == f;
        assert KeyOf(lib, c, r)[i] == KeyOf(lib, c, q)[i];
      }
    }
  }

  /** The skill names that count as present. */
  function NamedSkills(items: seq<Value>): seq<Value> {
    if items == [] then []
    else if items[0] == Null || items[0] == Text("") || items[0] == Flag(false) then NamedSkills(items[1..])
    else [items[0]] + NamedSkills(items[1..])
  }

  function Normalized(lib: Library, items: seq<Value>): seq<string> {
    seq(|items|, i requires 0 <= i < |items| => lib.normalized(items[i]))
  }

  function Elems(s: seq<string>): set<string> {
    set x | x in s
  }

  /** How many entries of `s` lie in `keys`. */
  function Hits(s: seq<string>, keys: set<string>): nat {
    if s == [] then 0 else (if s[0] in keys then 1 else 0) + Hits(s[1..], keys)
  }

  lemma {:induction false} HitsCoverDistinct(s: seq<string>, keys: set<string>)
    ensures |Elems(s) * keys| <= Hits(s, keys) <= |s|
  {
    if s != [] {
      HitsCoverDistinct(s[1..], keys);
      var rest := Elems(s[1..]) * keys;
      assert Elems(s) == {s[0]} + Elems(s[1..]) by {
        assert forall x :: x in s <==> x == s[0] || x in s[1..];
      }
      assert Elems(s) * keys == rest + if s[0] in keys then {s[0]} else {};
    }
  }

  lemma {:induction false} DistinctBelowLength(s: seq<string>)
    ensures |Elems(s)| <= |s|
  {
    if s != [] {
      DistinctBelowLength(s[1..]);
      assert Elems(s) == {s[0]} + Elems(s[1..]) by {
        assert forall x :: x in s <==> x == s[0] || x in s[1..];
      }
    }
  }

  /** How many of the records import without the fields they need. */
  function UnsafeImports(lib: Library, c: Collection, records: seq<Record>): (n: nat)
    ensures n <= |records|
  {
    if records == [] then 0
    else
      var last := |records| - 1;
      UnsafeImports(lib, c, records[..last]) + if lib.unsafeImport(c, records[last]) then 1 else 0
  }

  lemma {:induction false} UnsafeImportsCounted(lib: Library, c: Collection, records: seq<Record>)
    ensures UnsafeImports(lib, c, records) == HowMany(records, r => lib.unsafeImport(c, r))
    decreases |records|
  {
    if records != [] {
      UnsafeImportsCounted(lib, c, records[..|records| - 1]);
      HowManyGrows(records, r => lib.unsafeImport(c, r));
      hide HowMany;
    }
  }

  function EmptyNames(names: seq<string>): (n: nat)
    ensures n <= |names|
  {
    if names == [] then 0
    else EmptyNames(names[..|names| - 1]) + if names[|names| - 1] == "" then 1 else 0
  }

  lemma {:induction false} EmptyNamesCounted(names: seq<string>)
    ensures EmptyNames(names) == HowMany(names, x => x == "")
    decreases |names|
  {
    if names != [] {
      EmptyNamesCounted(names[..|names| - 1]);
      HowManyGrows(names, x => x == "");
      hide HowMany;
    }
  }

  /** How many places hold one of the keys. */
  lemma {:induction false} HitsCounted(names: seq<string>, keys: set<string>)
    ensures Hits(names, keys) == HowMany(names, x => x in keys)
    decreases |names|
  {
    if names != [] {
      HitsCounted(names[..|names| - 1], keys);
      HitsOfLast(names, keys);
      HowManyGrows(names, x => x in keys);
      hide HowMany, Hits;
    }
  }

  lemma {:induction false} HitsOfLast(names: seq<string>, keys: set<string>)
    requires names != []
    ensures var n := |names| - 1;
      Hits(names, keys) == Hits(names[..n], keys) + if names[n] in keys then 1 else 0
    decreases |names|
  {
    var n := |names| - 1;
    if n > 0 {
      HitsOfLast(names[1..], keys);
      assert names[1..][..n - 1] == names[..n][1..];
    }
  }

  function ProblemOf(lib: Library, c: Collection, expected: seq<Record>, actual: seq<Record>): Problem {
    Problem(IdentityFields(c), expected, actual, lib.similar)
  }

  // ----- what complete scoring adds

  function FieldScored(lib: Library, t: Tally, metric: string, expected: Value, actual: Value, isDate: bool): Tally {
    t.(fieldTotal := Bump(t.fieldTotal, metric, 1),
       fieldCorrect := if ValueMatches(lib, expected, actual, isDate) then Bump(t.fieldCorrect, metric, 1)
         else t.fieldCorrect)
  }

  /** The first `n` profile fields, those that the fixture states. */
  function ProfileScored(lib: Library, t: Tally, expected: Record, actual: Record, n: nat): Tally
    requires n <= |PROFILE_FIELDS|
  {
    if n == 0 then t
    else
      var before, field := ProfileScored(lib, t, expected, actual, n - 1), PROFILE_FIELDS[n - 1];
      if field in expected then
        FieldScored(lib, before, "profile." + field, Get(expected, field), Get(actual, field), false) else before
  }

  function ActualValue(lib: Library, f: ScoredField, actual: Record): Value {
    if f.isDate then lib.date(actual, f.actual) else Get(actual, f.actual)
  }

  /** The first `n` fields of a matched pair. */
  function PairScored(lib: Library, c: Collection, t: Tally, expected: Record, actual: Record, n: nat): Tally
    requires n <= |FieldMap(c)|
  {
    if n == 0 then t
    else
      var before, f := PairScored(lib, c, t, expected, actual, n - 1), FieldMap(c)[n - 1];
      if f.expected in expected
      then FieldScored(lib, before, MetricOf(c, f), Get(expected, f.expected),
        ActualValue(lib, f, actual), f.isDate)
      else before
  }

  predicate InRange(p: Problem, matches: seq<(nat, nat)>) {
    forall i :: 0 <= i < |matches| ==> matches[i].0 < |p.expected| && matches[i].1 < |p.actual|
  }

  function MatchesScored(lib: Library, p: Problem, c: Collection, t: Tally, matches: seq<(nat, nat)>): Tally
    requires InRange(p, matches)
  {
    if matches == [] then t
    else
      var (e, a) := matches[|matches| - 1];
      var before := MatchesScored(lib, p, c, t, matches[..|matches| - 1]);
      PairScored(lib, c, before, p.expected[e], p.actual[a], |FieldMap(c)|)
  }

  function Claimed(t: Tally, duplicates: nat, claims: nat, unsafe: nat): Tally {
    t.(duplicates := t.duplicates + duplicates, predictedClaims := t.predictedClaims + claims,
      invalidClaims := t.invalidClaims + unsafe)
  }

  lemma ChosenInRange(p: Problem, chosen: seq<Candidate>)
    requires Unblocked(p, chosen)
    ensures InRange(p, Pairs(chosen))
  {
  }

  /** The record counts of a collection, and the claims among its predicted records. */
  ghost function CollectionCounted(lib: Library, c: Collection, expected: seq<Record>, actual: seq<Record>,
      t: Tally): Tally {
    var p := ProblemOf(lib, c, expected, actual);
    SidesAddUp(p, Matching(p));
    Claimed(Recorded(t, c, |expected|, |actual|, |Matching(p)|, 0),
            Repeats(KeysOf(lib, c, actual)), |actual|, UnsafeImports(lib, c, actual))
  }

  ghost function CollectionScored(lib: Library, c: Collection, expected: seq<Record>, actual: seq<Record>,
      t: Tally): Tally {
    var p := ProblemOf(lib, c, expected, actual);
    ChosenInRange(p, Matching(p));
    MatchesScored(lib, p, c, CollectionCounted(lib, c, expected, actual, t), Pairs(Matching(p)))
  }

  function SkillKeys(lib: Library, d: Document): set<string> {
    Elems(Normalized(lib, d.skills))
  }

  function SkillNames(lib: Library, d: Document): seq<string> {
    Normalized(lib, NamedSkills(d.skills))
  }

  /** Skills are matched by name: each expected name once, however often it was predicted. */
  function SkillsScored(lib: Library, expected: Document, parsed: Document, t: Tally): Tally {
    var keys, names := SkillKeys(lib, expected), SkillNames(lib, parsed);
    var matched := |Elems(names) * keys|;
    HitsCoverDistinct(names, keys);
    DistinctBelowLength(names);
    SubsetCardinality(Elems(names) * keys, keys);
    Claimed(Recorded(t, Skills, |keys|, |names|, matched, Hits(names, keys) - matched), |names| - |Elems(names)|,
      |names|, EmptyNames(names))
  }

  ghost function CollectionsScored(lib: Library, expected: Document, parsed: Document, t: Tally, n: nat): Tally
    requires n <= |COLLECTIONS|
  {
    if n == 0 then t
    else
      var c := COLLECTIONS[n - 1];
      CollectionScored(lib, c, RecordsOf(expected, c), RecordsOf(parsed, c),
        CollectionsScored(lib, expected, parsed, t, n - 1))
  }

  /** Everything a fixture adds when no exception interrupts it. */
  ghost function FixtureScored(lib: Library, expected: Document, parsed: Document, t: Tally): Tally {
    var profile := ProfileScored(lib, t, expected.profile, parsed.profile, |PROFILE_FIELDS|);
    SkillsScored(lib, expected, parsed, CollectionsScored(lib, expected, parsed, profile, |COLLECTIONS|))
  }

  // ----- counts of one collection

  /** Expected, predicted and matched records of a collection. */
  datatype Counts = Counts(expected: nat, predicted: nat, matched: nat)

  const NO_COUNTS := Counts(0, 0, 0)

  function Plus(x: Counts, y: Counts): Counts {
    Counts(x.expected + y.expected, x.predicted + y.predicted, x.matched + y.matched)
  }

  predicate AtMost(x: Counts, y: Counts) {
    x.expected <= y.expected && x.predicted <= y.predicted && x.matched <= y.matched
  }

  function CountsAt(t: Tally, c: Collection): Counts {
    Counts(Count(t.expected, c), Count(t.predicted, c), Count(t.matched, c))
  }

  ghost function RecordCountsOf(lib: Library, c: Collection, expected: seq<Record>, actual: seq<Record>): Counts {
    Counts(|expected|, |actual|, |Matching(ProblemOf(lib, c, expected, actual))|)
  }

  /** What a fixture has to add to a collection's counts. */
  ghost function CountsOf(lib: Library, expected: Document, parsed: Document, c: Collection): Counts {
    if c == Skills then
      var keys, names := SkillKeys(lib, expected), SkillNames(lib, parsed);
      Counts(|keys|, |names|, |Elems(names) * keys|)
    else RecordCountsOf(lib, c, RecordsOf(expected, c), RecordsOf(parsed, c))
  }

  lemma PlainCounts(lib: Library, expected: Document, parsed: Document, c: Collection)
    requires c != Skills
    ensures CountsOf(lib, expected, parsed, c) == RecordCountsOf(lib, c, RecordsOf(expected, c), RecordsOf(parsed, c))
  {
  }

  /** The counters of one collection grew by these numbers, and no other collection's did. */
  predicate Grew(before: Tally, after: Tally, c: Collection, n: Counts) {
    && after.expected == Bump(before.expected, c, n.expected)
    && after.predicted == Bump(before.predicted, c, n.predicted)
    && after.matched == Bump(before.matched, c, n.matched)
  }

  predicate SameRecords(before: Tally, after: Tally) {
    after.expected == before.expected && after.predicted == before.predicted && after.matched == before.matched
  }

  lemma GrewCounts(before: Tally, after: Tally, c: Collection, n: Counts)
    requires Grew(before, after, c, n)
    ensures forall d :: CountsAt(after, d) == if d == c then Plus(CountsAt(before, c), n) else CountsAt(before, d)
  {
  }

  /** A fixture, whole or interrupted, adds each collection's counts wholly or not at all. */
  ghost predicate AllOrNothing(lib: Library, expected: Document, parsed: Document, before: Tally, after: Tally) {
    forall c ::
      CountsAt(after, c) == CountsAt(before, c)
        || CountsAt(after, c) == Plus(CountsAt(before, c), CountsOf(lib, expected, parsed, c))
  }

  ghost predicate AllCounted(lib: Library, expected: Document, parsed: Document, before: Tally, after: Tally) {
    forall c :: CountsAt(after, c) == Plus(CountsAt(before, c), CountsOf(lib, expected, parsed, c))
  }

  /** The collections not yet reached have their old counts; every other one is counted. */
  ghost predicate Progress(lib: Library, expected: Document, parsed: Document, start: Tally, now: Tally,
      todo: set<Collection>) {
    forall c :: CountsAt(now, c) ==
      if c in todo then CountsAt(start, c) else Plus(CountsAt(start, c), CountsOf(lib, expected, parsed, c))
  }

  class Totals {
    var expectedRecords: Counter<Collection>
    var predictedRecords: Counter<Collection>
    var matchedRecords: Counter<Collection>
    var hallucinatedRecords: nat
    var omittedRecords: nat
    var duplicateRecords: nat
    var predictedClaims: nat
    var invalidImportClaims: nat
    var fieldTotal: Counter<string>
    var fieldCorrect: Counter<string>
    var catastrophicFailures: nat
    var repeats: nat  // history only: the source keeps no such counter

    function Tally(): Tally
      reads this
    {
      ScoringTotals.Tally.Tally(expectedRecords, predictedRecords, matchedRecords, hallucinatedRecords, omittedRecords,
        repeats,
        duplicateRecords, predictedClaims, invalidImportClaims, fieldTotal, fieldCorrect, catastrophicFailures)
    }

    constructor ()
      ensures Tally() == EMPTY_TALLY && Balanced(Tally())
    {
      expectedRecords, predictedRecords, matchedRecords := map[], map[], map[];
      hallucinatedRecords, omittedRecords, duplicateRecords, predictedClaims, invalidImportClaims := 0, 0, 0, 0, 0;
      fieldTotal, fieldCorrect, catastrophicFailures, repeats := map[], map[], 0, 0;
    }

    /** One scored value: the field's total, then, if the comparison gets through, its correct count. */
    method ScoreField(lib: Library, metric: string, expected: Value, actual: Value, isDate: bool, fault: Fault)
      returns (left: Option<Fault>)
      requires Balanced(Tally())
      modifies this
      ensures Balanced(Tally()) && SameRecords(old(Tally()), Tally())
        && Tally().catastrophic == old(Tally().catastrophic)
      ensures left.Some? ==> Tally() == FieldScored(lib, old(Tally()), metric, expected, actual, isDate)
      ensures fault == Never ==> left == Some(Never)
    {
      fieldTotal := Bump(fieldTotal, metric, 1);
      FieldCounted(old(Tally()), Tally(), metric, false);
      if fault == After(0) {
        return None;
      }
      if ValueMatches(lib, expected, actual, isDate) {
        fieldCorrect := Bump(fieldCorrect, metric, 1);
        FieldCounted(old(Tally()), Tally(), metric, true);
      }
      left := Some(Next(fault));
    }

    /** The profile fields the fixture states. */
    method ScoreProfile(lib: Library, expected: Record, actual: Record, fault: Fault) returns (left: Option<Fault>)
      requires Balanced(Tally())
      modifies this
      ensures Balanced(Tally()) && SameRecords(old(Tally()), Tally())
        && Tally().catastrophic == old(Tally().catastrophic)
      ensures left.Some? ==> Tally() == ProfileScored(lib, old(Tally()), expected, actual, |PROFILE_FIELDS|)
      ensures fault == Never ==> left == Some(Never)
    {
      hide Balanced, FieldScored;
      left := Some(fault);
      for i := 0 to |PROFILE_FIELDS|
        invariant left.Some? && Balanced(Tally()) && SameRecords(old(Tally()), Tally())
        invariant Tally().catastrophic == old(Tally().catastrophic)
        invariant Tally() == ProfileScored(lib, old(Tally()), expected, actual, i)
        invariant fault == Never ==> left == Some(Never)
      {
        var field := PROFILE_FIELDS[i];
        if field in expected {
          left := ScoreField(lib, "profile." + field, Get(expected, field), Get(actual, field), false, left.value);
          if left == None {
            return;
          }
        }
      }
    }

    /** The field comparisons of one matched pair. */
    method ScorePair(lib: Library, c: Collection, expected: Record, actual: Record, fault: Fault)
        returns (left: Option<Fault>)
      requires Balanced(Tally())
      modifies this
      ensures Balanced(Tally()) && SameRecords(old(Tally()), Tally())
        && Tally().catastrophic == old(Tally().catastrophic)
      ensures left.Some? ==> Tally() == PairScored(lib, c, old(Tally()), expected, actual, |FieldMap(c)|)
      ensures fault == Never ==> left == Some(Never)
    {
      hide Balanced, FieldScored, FieldMap;
      left := Some(fault);
      var fields := FieldMap(c);
      for i := 0 to |fields|
        invariant left.Some? && Balanced(Tally()) && SameRecords(old(Tally()), Tally())
        invariant Tally().catastrophic == old(Tally().catastrophic)
        invariant Tally() == PairScored(lib, c, old(Tally()), expected, actual, i)
        invariant fault == Never ==> left == Some(Never)
      {
        var f := fields[i];
        if f.expected in expected {
          if left == Some(After(0)) {
            return None;
          }
          var value := ActualValue(lib, f, actual);
          left := ScoreField(lib, MetricOf(c, f), Get(expected, f.expected), value, f.isDate,
            Next(left.value));
          if left == None {
            return;
          }
        }
      }
    }

    /** The record counters of one collection, all updated before anything else can fail. */
    method RecordCounts(c: Collection, e: nat, a: nat, m: nat, omitted: nat, hallucinated: nat)
      requires Balanced(Tally()) && m + omitted == e && m + hallucinated <= a
      modifies this
      ensures Tally() == Recorded(old(Tally()), c, e, a, m, a - m - hallucinated)
      ensures Balanced(Tally()) && CounterSum(Tally().predicted) == CounterSum(old(Tally()).predicted) + a
    {
      hide Balanced, CounterSum, Bump;
      expectedRecords := Bump(expectedRecords, c, e);
      predictedRecords := Bump(predictedRecords, c, a);
      matchedRecords := Bump(matchedRecords, c, m);
      omittedRecords := omittedRecords + omitted;
      hallucinatedRecords := hallucinatedRecords + hallucinated;
      repeats := repeats + (a - m - hallucinated);
      RecordingBalances(old(Tally()), c, e, a, m, a - m - hallucinated);
    }

    /** Duplicates and unsafe imports among the predicted records, which have just been counted. */
    method CountClaims(duplicates: nat, claims: nat, unsafe: nat, fault: Fault) returns (left: Option<Fault>)
      requires Balanced(Tally()) && duplicates <= claims && unsafe <= claims
      requires Tally().duplicates + claims <= CounterSum(Tally().predicted)
      requires Tally().predictedClaims + claims <= CounterSum(Tally().predicted)
      modifies this
      ensures Balanced(Tally()) && SameRecords(old(Tally()), Tally())
        && Tally().catastrophic == old(Tally().catastrophic)
      ensures left.Some? ==> Tally() == Claimed(old(Tally()), duplicates, claims, unsafe)
      ensures fault == Never ==> left == Some(Never)
    {
      hide CounterSum;
      if fault == After(0) {
        return None;
      }
      duplicateRecords := duplicateRecords + duplicates;
      predictedClaims := predictedClaims + claims;
      if Next(fault) == After(0) {
        return None;
      }
      invalidImportClaims := invalidImportClaims + unsafe;
      left := Some(Next(Next(fault)));
    }

    method ScoreMatches(lib: Library, p: Problem, c: Collection, matches: seq<(nat, nat)>, fault: Fault)
        returns (left: Option<Fault>)
      requires Balanced(Tally()) && InRange(p, matches)
      modifies this
      ensures Balanced(Tally()) && SameRecords(old(Tally()), Tally())
        && Tally().catastrophic == old(Tally().catastrophic)
      ensures left.Some? ==> Tally() == MatchesScored(lib, p, c, old(Tally()), matches)
      ensures fault == Never ==> left == Some(Never)
    {
      hide Balanced, PairScored;
      left := Some(fault);
      for i := 0 to |matches|
        invariant left.Some? && Balanced(Tally()) && SameRecords(old(Tally()), Tally())
        invariant Tally().catastrophic == old(Tally().catastrophic)
        invariant Tally() == MatchesScored(lib, p, c, old(Tally()), matches[..i])
        invariant fault == Never ==> left == Some(Never)
      {
        assert matches[..i + 1][..i] == matches[..i];
        var (e, a) := matches[i];
        left := ScorePair(lib, c, p.expected[e], p.actual[a], left.value);
        if left == None {
          return;
        }
      }
      assert matches[..|matches|] == matches;
    }

    /** The record counts of a collection, then the claims among its predicted records. */
    method CountAndClaim(c: Collection, n: Counts, omitted: nat, hallucinated: nat, duplicates: nat, unsafe: nat,
        fault: Fault)
      returns (left: Option<Fault>)
      requires Balanced(Tally()) && n.matched + omitted == n.expected && n.matched + hallucinated <= n.predicted
      requires duplicates <= n.predicted && unsafe <= n.predicted
      modifies this
      ensures Balanced(Tally()) && Tally().catastrophic == old(Tally().catastrophic)
      ensures left.Some? ==>
        Tally() == Claimed(Recorded(old(Tally()), c, n.expected, n.predicted, n.matched,
          n.predicted - n.matched - hallucinated),
                           duplicates, n.predicted, unsafe)
      ensures Grew(old(Tally()), Tally(), c, n)
      ensures fault == Never ==> left == Some(Never)
    {
      hide *;
      ghost var before := Tally();
      ClaimsFit(before);
      RecordCounts(c, n.expected, n.predicted, n.matched, omitted, hallucinated);
      RecordingGrows(before, c, n, n.predicted - n.matched - hallucinated);
      ghost var counted := Tally();
      left := CountClaims(duplicates, n.predicted, unsafe, fault);
      StillGrown(before, counted, Tally(), c, n);
    }

    /** The records of one collection: matched, counted, and the claims among them. */
    method CountCollection(lib: Library, c: Collection, expected: seq<Record>, actual: seq<Record>, fault: Fault)
      returns (left: Option<Fault>, matches: seq<(nat, nat)>)
      requires Balanced(Tally())
      modifies this
      ensures Balanced(Tally()) && Tally().catastrophic == old(Tally().catastrophic)
      ensures var p := ProblemOf(lib, c, expected, actual);
        matches == Pairs(Matching(p)) && InRange(p, matches)
      ensures left.Some? ==> Tally() == CollectionCounted(lib, c, expected, actual, old(Tally()))
      ensures Grew(old(Tally()), Tally(), c, RecordCountsOf(lib, c, expected, actual))
        || (left.None? && SameRecords(old(Tally()), Tally()))
      ensures fault == Never ==> left == Some(Never)
    {
      hide *;
      var p := ProblemOf(lib, c, expected, actual);
      var omitted, hallucinated;
      ghost var chosen;
      matches, omitted, hallucinated, chosen := MatchRecords(p);
      CollectionNumbers(lib, c, expected, actual, Tally());
      var duplicates := DuplicateCount(KeysOf(lib, c, actual));
      if fault == After(0) {
        NothingCounted(Tally());
        return None, matches;
      }
      var n := Counts(|expected|, |actual|, |matches|);
      left := CountAndClaim(c, n, |omitted|, |hallucinated|, duplicates, UnsafeImports(lib, c, actual), Next(fault));
    }

    /** One collection, completely when no exception interrupts it; its record counts are added wholly or not at all. */
    method ScoreCollection(lib: Library, c: Collection, expected: seq<Record>, actual: seq<Record>, fault: Fault)
      returns (left: Option<Fault>)
      requires Balanced(Tally())
      modifies this
      ensures Balanced(Tally()) && Tally().catastrophic == old(Tally().catastrophic)
      ensures left.Some? ==> Tally() == CollectionScored(lib, c, expected, actual, old(Tally()))
      ensures Grew(old(Tally()), Tally(), c, RecordCountsOf(lib, c, expected, actual))
        || (left.None? && SameRecords(old(Tally()), Tally()))
      ensures fault == Never ==> left == Some(Never)
    {
      hide Balanced, Matching, MatchesScored, CollectionCounted, RecordCountsOf;
      var matches;
      left, matches := CountCollection(lib, c, expected, actual, fault);
      if left == None {
        return;
      }
      left := ScoreMatches(lib, ProblemOf(lib, c, expected, actual), c, matches, left.value);
    }

    method ScoreSkills(lib: Library, expected: Document, parsed: Document, fault: Fault) returns (left: Option<Fault>)
      requires Balanced(Tally())
      modifies this
      ensures Balanced(Tally()) && Tally().catastrophic == old(Tally().catastrophic)
      ensures left.Some? ==> Tally() == SkillsScored(lib, expected, parsed, old(Tally()))
      ensures Grew(old(Tally()), Tally(), Skills, CountsOf(lib, expected, parsed, Skills))
        || (left.None? && SameRecords(old(Tally()), Tally()))
      ensures fault == Never ==> left == Some(Never)
    {
      hide *;
      if fault == After(0) {
        NothingCounted(Tally());
        return None;
      }
      var keys, names := SkillKeys(lib, expected), SkillNames(lib, parsed);
      var matched := |Elems(names) * keys|;
      HitsCoverDistinct(names, keys);
      DistinctBelowLength(names);
      SubsetCardinality(Elems(names) * keys, keys);
      SkillNumbers(lib, expected, parsed, Tally());
      var omitted := if |keys| >= matched then |keys| - matched else 0;
      left := CountAndClaim(Skills, Counts(|keys|, |names|, matched), omitted, |names| - Hits(names, keys),
                            |names| - |Elems(names)|, EmptyNames(names), Never);
      left := Some(Next(fault));
    }

    method CountFailure()
      requires Balanced(Tally())
      modifies this`catastrophicFailures
      ensures Tally() == old(Tally()).(catastrophic := old(Tally().catastrophic) + 1) && Balanced(Tally())
    {
      catastrophicFailures := catastrophicFailures + 1;
    }

    /** The next collection of a fixture that started from `start`, with the profile scored at `begin`. */
    method ScoreNext(lib: Library, expected: Document, parsed: Document, i: nat, fault: Fault, ghost start: Tally,
        ghost begin: Tally)
      returns (left: Option<Fault>)
      requires i < |COLLECTIONS| && Balanced(Tally()) && Tally() == CollectionsScored(lib, expected, parsed, begin, i)
      requires Progress(lib, expected, parsed, start, Tally(), Remaining(i))
      modifies this
      ensures Balanced(Tally()) && Tally().catastrophic == old(Tally().catastrophic)
      ensures left.Some? ==>
        && Tally() == CollectionsScored(lib, expected, parsed, begin, i + 1)
        && Progress(lib, expected, parsed, start, Tally(), Remaining(i + 1))
      ensures AllOrNothing(lib, expected, parsed, start, Tally())
      ensures fault == Never ==> left == Some(Never)
    {
      hide *;
      ghost var before := Tally();
      var c := COLLECTIONS[i];
      left := ScoreCollection(lib, c, RecordsOf(expected, c), RecordsOf(parsed, c), fault);
      AfterCollection(lib, expected, parsed, i, start, begin, before, Tally());
    }

    /** The loop over the collections. */
    method ScoreCollections(lib: Library, expected: Document, parsed: Document, fault: Fault, ghost start: Tally)
      returns (left: Option<Fault>)
      requires Balanced(Tally()) && SameRecords(start, Tally())
      modifies this
      ensures Balanced(Tally()) && Tally().catastrophic == old(Tally().catastrophic)
      ensures left.Some? ==> Tally() == CollectionsScored(lib, expected, parsed, old(Tally()), |COLLECTIONS|)
      ensures left.Some? ==> Progress(lib, expected, parsed, start, Tally(), {Skills})
      ensures AllOrNothing(lib, expected, parsed, start, Tally())
      ensures fault == Never ==> left == Some(Never)
    {
      hide *;
      ghost var begin := Tally();
      StartOfFixture(lib, expected, parsed, start, begin);
      NoneRemain();
      NoneScored(lib, expected, parsed, begin);
      left := Some(fault);
      for i := 0 to |COLLECTIONS|
        invariant left.Some? && Balanced(Tally()) && Tally().catastrophic == begin.catastrophic
        invariant Tally() == CollectionsScored(lib, expected, parsed, begin, i)
        invariant Progress(lib, expected, parsed, start, Tally(), Remaining(i))
        invariant AllOrNothing(lib, expected, parsed, start, Tally())
        invariant fault == Never ==> left == Some(Never)
      {
        left := ScoreNext(lib, expected, parsed, i, left.value, start, begin);
        if left == None {
          return;
        }
      }
    }

    /** One fixture. False means that an exception surfaced, in the scoring or in the leak scan at its end. */
    method ScoreFixture(lib: Library, expected: Document, parsed: Document, fault: Fault) returns (scored: bool)
      requires Balanced(Tally())
      modifies this
      ensures Balanced(Tally()) && Tally().catastrophic == old(Tally().catastrophic)
      ensures scored ==> Tally() == FixtureScored(lib, expected, parsed, old(Tally()))
      ensures scored ==> AllCounted(lib, expected, parsed, old(Tally()), Tally())
      ensures AllOrNothing(lib, expected, parsed, old(Tally()), Tally())
      ensures fault == Never ==> scored
    {
      hide CollectionsScored, SkillsScored, ProfileScored, CountsOf, Balanced, Progress;
      ghost var start := Tally();
      var left := ScoreProfile(lib, expected.profile, parsed.profile, fault);
      StartOfFixture(lib, expected, parsed, start, Tally());
      if left == None {
        return false;
      }
      left := ScoreCollections(lib, expected, parsed, left.value, start);
      if left == None {
        return false;
      }
      hide AllOrNothing, AllCounted;
      ghost var before := Tally();
      left := ScoreSkills(lib, expected, parsed, left.value);
      SkillsStep(lib, expected, parsed, start, before, Tally());
      if left == None || left == Some(After(0)) {
        return false;
      }
      return true;
    }
  }

  /** After a collection its counts are in, or, when it was interrupted early, still as before. */
  lemma CollectionStep(lib: Library, expected: Document, parsed: Document, c: Collection, n: Counts,
                       start: Tally, before: Tally, after: Tally, todo: set<Collection>)
    requires c in todo && n == CountsOf(lib, expected, parsed, c)
      && Progress(lib, expected, parsed, start, before, todo)
    requires Grew(before, after, c, n) || SameRecords(before, after)
    ensures AllOrNothing(lib, expected, parsed, start, after)
    ensures Grew(before, after, c, n) ==> Progress(lib, expected, parsed, start, after, todo - {c})
  {
    var grew := Grew(before, after, c, n);
    forall d
      ensures CountsAt(after, d) == if d == c && grew then Plus(CountsAt(before, d), n) else CountsAt(before, d)
    {
      if grew {
        GrewCounts(before, after, c, n);
      }
    }
    hide CountsOf, Grew, SameRecords, CountsAt, Plus;
    forall d
      ensures CountsAt(after, d) == CountsAt(start, d)
        || CountsAt(after, d) == Plus(CountsAt(start, d), CountsOf(lib, expected, parsed, d))
      ensures grew && d !in todo - {c} ==>
        CountsAt(after, d) == Plus(CountsAt(start, d), CountsOf(lib, expected, parsed, d))
      ensures grew && d in todo - {c} ==> CountsAt(after, d) == CountsAt(start, d)
    {
      assert CountsAt(before, d) == if d in todo then CountsAt(start, d)
        else Plus(CountsAt(start, d), CountsOf(lib, expected, parsed, d));
    }
  }

  lemma AfterCollection(lib: Library, expected: Document, parsed: Document, i: nat, start: Tally, begin: Tally,
      before: Tally, after: Tally)
    requires i < |COLLECTIONS| && Progress(lib, expected, parsed, start, before, Remaining(i))
    requires var c := COLLECTIONS[i];
      Grew(before, after, c, RecordCountsOf(lib, c, RecordsOf(expected, c), RecordsOf(parsed, c)))
        || SameRecords(before, after)
    ensures AllOrNothing(lib, expected, parsed, start, after)
    ensures var c := COLLECTIONS[i];
      && (Grew(before, after, c, RecordCountsOf(lib, c, RecordsOf(expected, c), RecordsOf(parsed, c))) ==>
            Progress(lib, expected, parsed, start, after, Remaining(i + 1)))
      && CollectionsScored(lib, expected, parsed, begin, i + 1) ==
           CollectionScored(lib, c, RecordsOf(expected, c), RecordsOf(parsed, c),
             CollectionsScored(lib, expected, parsed, begin, i))
  {
    var c := COLLECTIONS[i];
    OneFewer(i);
    PlainCounts(lib, expected, parsed, c);
    hide Progress, AllOrNothing, Grew, SameRecords, CollectionScored, Remaining, RecordCountsOf, CountsOf, RecordsOf;
    CollectionStep(lib, expected, parsed, c, CountsOf(lib, expected, parsed, c), start, before, after, Remaining(i));
  }

  lemma SkillsStep(lib: Library, expected: Document, parsed: Document, start: Tally, before: Tally, after: Tally)
    requires Progress(lib, expected, parsed, start, before, {Skills})
    requires Grew(before, after, Skills, CountsOf(lib, expected, parsed, Skills)) || SameRecords(before, after)
    ensures AllOrNothing(lib, expected, parsed, start, after)
    ensures Grew(before, after, Skills, CountsOf(lib, expected, parsed, Skills)) ==>
      AllCounted(lib, expected, parsed, start, after)
  {
    CollectionStep(lib, expected, parsed, Skills, CountsOf(lib, expected, parsed, Skills), start, before, after,
      {Skills});
    hide CountsOf, Grew, SameRecords, CountsAt, Plus;
  }

  lemma StartOfFixture(lib: Library, expected: Document, parsed: Document, start: Tally, now: Tally)
    requires SameRecords(start, now)
    ensures Progress(lib, expected, parsed, start, now, Remaining(0)) && AllOrNothing(lib, expected, parsed, start, now)
  {
    hide CountsOf;
    forall c
      ensures c in Remaining(0)
    {
      AllRemain(c);
    }
  }

  lemma ListedOnce()
    ensures forall i, j :: 0 <= i < j < |COLLECTIONS| ==> COLLECTIONS[i] != COLLECTIONS[j]
    ensures forall i :: 0 <= i < |COLLECTIONS| ==> COLLECTIONS[i] != Skills
  {
  }

  function Remaining(i: nat): set<Collection>
    requires i <= |COLLECTIONS|
  {
    {Skills} + set k | i <= k < |COLLECTIONS| :: COLLECTIONS[k]
  }

  lemma AllRemain(c: Collection)
    ensures c in Remaining(0)
  {
    var k := match c case Employments => 0 case Education => 1 case Internships => 2 case Freelance => 3
                     case GigPlatforms => 4 case Certifications => 5 case Projects => 6 case Skills => 7;
    assert c == Skills || COLLECTIONS[k] == c;
  }

  lemma RecordingGrows(t: Tally, c: Collection, n: Counts, r: nat)
    requires n.matched <= n.expected && n.matched + r <= n.predicted
    ensures var u := Recorded(t, c, n.expected, n.predicted, n.matched, r);
      Grew(t, u, c, n) && u.duplicates == t.duplicates && u.predictedClaims == t.predictedClaims
        && u.catastrophic == t.catastrophic
  {
    hide Bump;
  }

  lemma StillGrown(before: Tally, counted: Tally, after: Tally, c: Collection, n: Counts)
    requires Grew(before, counted, c, n) && SameRecords(counted, after)
    ensures Grew(before, after, c, n)
  {
  }

  lemma NothingCounted(t: Tally)
    ensures SameRecords(t, t)
  {
  }

  lemma CollectionNumbers(lib: Library, c: Collection, expected: seq<Record>, actual: seq<Record>, t: Tally)
    ensures var p := ProblemOf(lib, c, expected, actual);
      var m := |Matching(p)|;
      && p.expected == expected && p.actual == actual && |KeysOf(lib, c, actual)| == |actual|
      && |Pairs(Matching(p))| == m
      && InRange(p, Pairs(Matching(p))) && RecordCountsOf(lib, c, expected, actual) == Counts(|expected|, |actual|, m)
      && m <= |expected| && m <= |actual|
      && CollectionCounted(lib, c, expected, actual, t) ==
           Claimed(Recorded(t, c, |expected|, |actual|, m, 0), Repeats(KeysOf(lib, c, actual)), |actual|,
             UnsafeImports(lib, c, actual))
  {
    var p := ProblemOf(lib, c, expected, actual);
    SidesAddUp(p, Matching(p));
    ChosenInRange(p, Matching(p));
    hide Matching, Recorded, Claimed, Unblocked, WithinTwo, InRange, Repeats, UnsafeImports;
  }

  lemma SkillNumbers(lib: Library, expected: Document, parsed: Document, t: Tally)
    ensures var keys, names := SkillKeys(lib, expected), SkillNames(lib, parsed);
      var matched := |Elems(names) * keys|;
      && CountsOf(lib, expected, parsed, Skills) == Counts(|keys|, |names|, matched)
      && matched <= |keys| && matched <= Hits(names, keys) <= |names| && |Elems(names)| <= |names|
      && SkillsScored(lib, expected, parsed, t) ==
           Claimed(Recorded(t, Skills, |keys|, |names|, matched, Hits(names, keys) - matched),
                   |names| - |Elems(names)|, |names|, EmptyNames(names))
  {
    var keys, names := SkillKeys(lib, expected), SkillNames(lib, parsed);
    HitsCoverDistinct(names, keys);
    DistinctBelowLength(names);
    SubsetCardinality(Elems(names) * keys, keys);
    hide Recorded, Claimed, Hits, Elems, SkillKeys, SkillNames, EmptyNames;
  }

  lemma ClaimsFit(t: Tally)
    requires Balanced(t)
    ensures t.duplicates <= CounterSum(t.predicted) && t.predictedClaims <= CounterSum(t.predicted)
  {
  }

  lemma NoneScored(lib: Library, expected: Document, parsed: Document, t: Tally)
    ensures CollectionsScored(lib, expected, parsed, t, 0) == t
  {
  }

  lemma NoneRemain()
    ensures Remaining(|COLLECTIONS|) == {Skills}
  {
  }

  lemma OneFewer(i: nat)
    requires i < |COLLECTIONS|
    ensures COLLECTIONS[i] in Remaining(i) && COLLECTIONS[i] != Skills
    ensures Remaining(i + 1) == Remaining(i) - {COLLECTIONS[i]}
  {
    ListedOnce();
  }

  // ----- the loop over fixtures

  /** A fixture, what the parser made of it (None when parsing itself failed), and when scoring it fails. */
  datatype Attempt = Attempt(expected: Document, parsed: Option<Document>, fault: Fault)

  /** The counts that the chosen attempts have to add to a collection. */
  ghost function CountsOver(lib: Library, attempts: seq<Attempt>, chosen: seq<bool>, c: Collection): Counts
    requires |chosen| == |attempts|
  {
    if attempts == [] then NO_COUNTS
    else
      var n := |attempts| - 1;
      var before := CountsOver(lib, attempts[..n], chosen[..n], c);
      if chosen[n] && attempts[n].parsed.Some? then
        Plus(before, CountsOf(lib, attempts[n].expected, attempts[n].parsed.value, c))
      else before
  }

  function Parsed(attempts: seq<Attempt>): seq<bool> {
    seq(|attempts|, i requires 0 <= i < |attempts| => attempts[i].parsed.Some?)
  }

  function Failures(scored: seq<bool>): nat {
    if scored == [] then 0 else Failures(scored[..|scored| - 1]) + if scored[|scored| - 1] then 0 else 1
  }

  lemma {:induction false} FailuresBelow(scored: seq<bool>)
    ensures Failures(scored) <= |scored|
  {
    if scored != [] {
      FailuresBelow(scored[..|scored| - 1]);
    }
  }

  /** Each collection's counts lie between what the scored fixtures add and what all parsed ones would. */
  ghost predicate Tied(lib: Library, attempts: seq<Attempt>, scored: seq<bool>, t: Tally)
    requires |scored| == |attempts|
  {
    forall c :: AtMost(CountsOver(lib, attempts, scored, c), CountsAt(t, c))
             && AtMost(CountsAt(t, c), CountsOver(lib, attempts, Parsed(attempts), c))
  }

  /** The totals of fixtures that were all scored. */
  ghost function AllScored(lib: Library, attempts: seq<Attempt>): Tally
    requires forall i :: 0 <= i < |attempts| ==> attempts[i].parsed.Some?
  {
    if attempts == [] then EMPTY_TALLY
    else
      var n := |attempts| - 1;
      FixtureScored(lib, attempts[n].expected, attempts[n].parsed.value, AllScored(lib, attempts[..n]))
  }

  /** Which attempts could be and were scored: none without a parse, every one without a fault. */
  predicate RightlyScored(attempts: seq<Attempt>, scored: seq<bool>) {
    && |scored| == |attempts|
    && forall i :: 0 <= i < |scored| ==>
         (scored[i] ==> attempts[i].parsed.Some?)
           && (attempts[i].parsed.Some? && attempts[i].fault == Never ==> scored[i])
  }

  /** The loop of `run`: whatever fails, the totals balance and the report's figures are percentages; failures are
      counted one by one; and the totals are those of the fixtures, exactly when every one of them was scored. */
  method ScoreAll(lib: Library, attempts: seq<Attempt>, round: Rounding)
    returns (totals: Totals, overall: Overall, scored: seq<bool>)
    requires Rounds(round)
    ensures RightlyScored(attempts, scored)
    ensures Balanced(totals.Tally()) && totals.Tally().catastrophic == Failures(scored)
    ensures Tied(lib, attempts, scored, totals.Tally())
    ensures Failures(scored) == 0 ==>
      && FullyScored(lib, attempts, totals.Tally())
      && forall c :: CountsAt(totals.Tally(), c) == CountsOver(lib, attempts, scored, c)
    ensures overall == BuildOverall(totals.Tally(), |attempts|, DateMetrics(COLLECTIONS), round)
    ensures FiguresReport(overall, totals.Tally(), |attempts|, DateMetrics(COLLECTIONS)) && AllPercentages(overall)
    ensures CounterSum(totals.Tally().expected) > 0 ==> -0.01 <= overall.recall + overall.omission - 100.0 <= 0.01
  {
    totals := new Totals();
    scored := [];
    NothingYet(lib, attempts);
    hide FixtureScored, AllOrNothing, AllCounted, Balanced, CountsOver, CountsOf, Tied, RightlyScored, FullyScored,
      AllScored;
    for i := 0 to |attempts|
      invariant fresh(totals) && Balanced(totals.Tally())
      invariant RightlyScored(attempts[..i], scored) && |scored| == i
      invariant totals.Tally().catastrophic == Failures(scored)
      invariant Tied(lib, attempts[..i], scored, totals.Tally())
      invariant Failures(scored) == 0 ==> FullyScored(lib, attempts[..i], totals.Tally())
    {
      ghost var before := totals.Tally();
      var done := false;
      if attempts[i].parsed.Some? {
        done := totals.ScoreFixture(lib, attempts[i].expected, attempts[i].parsed.value, attempts[i].fault);
      }
      ghost var after := totals.Tally();
      if !done {
        totals.CountFailure();
      }
      OneMoreTied(lib, attempts, i, scored, done, before, after, totals.Tally());
      OneMoreRight(lib, attempts, i, scored, done, before, totals.Tally());
      scored := scored + [done];
    }
    assert attempts[..|attempts|] == attempts;
    FailuresBelow(scored);
    if Failures(scored) == 0 {
      ExactlyTied(lib, attempts, scored, totals.Tally());
    }
    overall := BuildOverall(totals.Tally(), |attempts|, DateMetrics(COLLECTIONS), round);
    OverallIsSound(totals.Tally(), |attempts|, DateMetrics(COLLECTIONS), round);
    FiguresAreShares(totals.Tally(), |attempts|, DateMetrics(COLLECTIONS), round);
  }

  lemma NothingYet(lib: Library, attempts: seq<Attempt>)
    ensures Tied(lib, attempts[..0], [], EMPTY_TALLY) && RightlyScored(attempts[..0], [])
      && FullyScored(lib, attempts[..0], EMPTY_TALLY)
  {
  }

  /** One more attempt, rightly scored or counted as a failure. */
  lemma OneMoreRight(lib: Library, attempts: seq<Attempt>, i: nat, scored: seq<bool>, done: bool, before: Tally,
      after: Tally)
    requires i < |attempts| && RightlyScored(attempts[..i], scored)
    requires Failures(scored) == 0 ==> FullyScored(lib, attempts[..i], before)
    requires done ==> attempts[i].parsed.Some?
    requires attempts[i].parsed.Some? && attempts[i].fault == Never ==> done
    requires done ==> after == FixtureScored(lib, attempts[i].expected, attempts[i].parsed.value, before)
    ensures RightlyScored(attempts[..i + 1], scored + [done])
    ensures Failures(scored + [done]) == Failures(scored) + if done then 0 else 1
    ensures Failures(scored + [done]) == 0 ==> FullyScored(lib, attempts[..i + 1], after)
  {
    hide FixtureScored;
    var now := attempts[..i + 1];
    assert (scored + [done])[..|scored|] == scored && now[..i] == attempts[..i];
    forall k | 0 <= k < i
      ensures now[k] == attempts[..i][k]
    {
    }
  }

  /** All attempts were parsed, and the totals are what scoring them all gives. */
  ghost predicate FullyScored(lib: Library, attempts: seq<Attempt>, t: Tally) {
    && (forall i :: 0 <= i < |attempts| ==> attempts[i].parsed.Some?)
    && t == AllScored(lib, attempts)
  }

  lemma {:induction false} NoneFailed(scored: seq<bool>)
    requires Failures(scored) == 0
    ensures forall i :: 0 <= i < |scored| ==> scored[i]
  {
    if scored != [] {
      NoneFailed(scored[..|scored| - 1]);
    }
  }

  lemma ExactlyTied(lib: Library, attempts: seq<Attempt>, scored: seq<bool>, t: Tally)
    requires RightlyScored(attempts, scored) && Failures(scored) == 0 && Tied(lib, attempts, scored, t)
    ensures forall c :: CountsAt(t, c) == CountsOver(lib, attempts, scored, c)
  {
    NoneFailed(scored);
    assert scored == Parsed(attempts);
  }

  /** What one more attempt adds to either bound. */
  lemma OneMoreOver(lib: Library, attempts: seq<Attempt>, chosen: seq<bool>, done: bool, i: nat, c: Collection)
    requires i < |attempts| && |chosen| == i
    ensures CountsOver(lib, attempts[..i + 1], chosen + [done], c) ==
      if done && attempts[i].parsed.Some?
      then Plus(CountsOver(lib, attempts[..i], chosen, c),
        CountsOf(lib, attempts[i].expected, attempts[i].parsed.value, c))
      else CountsOver(lib, attempts[..i], chosen, c)
  {
    assert attempts[..i + 1][..i] == attempts[..i] && (chosen + [done])[..i] == chosen;
    hide CountsOf;
  }

  lemma BoundsStep(low: Counts, high: Counts, before: Counts, after: Counts, n: Counts, done: bool, parsed: bool)
    requires AtMost(low, before) && AtMost(before, high) && (done ==> parsed && after == Plus(before, n))
    requires after == before || (parsed && after == Plus(before, n))
    ensures AtMost(if done then Plus(low, n) else low, after) && AtMost(after, if parsed then Plus(high, n) else high)
  {
  }

  /** One more attempt moves both bounds, and the counts between them. */
  lemma OneMoreTied(lib: Library, attempts: seq<Attempt>, i: nat, scored: seq<bool>, done: bool,
                    before: Tally, after: Tally, t: Tally)
    requires i < |attempts| && |scored| == i && Tied(lib, attempts[..i], scored, before)
    requires done ==>
      attempts[i].parsed.Some? && AllCounted(lib, attempts[i].expected, attempts[i].parsed.value, before, after)
    requires if attempts[i].parsed.Some? then
      AllOrNothing(lib, attempts[i].expected, attempts[i].parsed.value, before, after)
             else after == before
    requires SameRecords(after, t)
    ensures Tied(lib, attempts[..i + 1], scored + [done], t)
  {
    var now, a := attempts[..i + 1], attempts[i];
    assert Parsed(now) == Parsed(attempts[..i]) + [a.parsed.Some?];
    assert forall c :: CountsAt(t, c) == CountsAt(after, c);
    hide CountsOf, CountsOver, Parsed, CountsAt, Plus, AtMost, SameRecords;
    forall c
      ensures AtMost(CountsOver(lib, now, scored + [done], c), CountsAt(t, c))
      ensures AtMost(CountsAt(t, c), CountsOver(lib, now, Parsed(now), c))
    {
      OneMoreOver(lib, attempts, scored, done, i, c);
      OneMoreOver(lib, attempts, Parsed(attempts[..i]), a.parsed.Some?, i, c);
      var n := if a.parsed.Some? then CountsOf(lib, a.expected, a.parsed.value, c) else NO_COUNTS;
      BoundsStep(CountsOver(lib, attempts[..i], scored, c), CountsOver(lib, attempts[..i], Parsed(attempts[..i]), c),
                 CountsAt(before, c), CountsAt(after, c), n, done, a.parsed.Some?);
    }
  }

  lemma FieldCounted(before: Tally, after: Tally, metric: string, correct: bool)
    requires Balanced(before)
    requires after == before.(
      fieldTotal := Bump(before.fieldTotal, metric, 1),
      fieldCorrect := if correct then Bump(before.fieldCorrect, metric, 1) else before.fieldCorrect)
    ensures Balanced(after)
  {
    forall f
      ensures Count(after.fieldCorrect, f) <= Count(after.fieldTotal, f)
    {
      assert Count(before.fieldCorrect, f) <= Count(before.fieldTotal, f);
    }
  }
}
