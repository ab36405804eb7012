/** Candidate pairs and the greedy matching over them (scripts/qualify_resume_parser.py). */
module Candidates {

  /** A scored pair: expected record `e`, actual record `a`. */
  datatype Candidate = Candidate(score: real, e: nat, a: nat)

  /** The order of sorted(..., reverse=True) on the triples. */
  predicate Above(x: Candidate, y: Candidate) {
    x.score > y.score || (x.score == y.score && (x.e > y.e || (x.e == y.e && x.a > y.a)))
  }

  predicate Descending(l: seq<Candidate>) {
    forall i, j :: 0 <= i < j < |l| ==> Above(l[i], l[j])
  }

  /** The two pairs share an expected or an actual record. */
  predicate Touches(x: Candidate, y: Candidate) {
    x.e == y.e || x.a == y.a
  }

  /** No record is used twice. */
  predicate IsMatching(s: seq<Candidate>) {
    forall i, j :: 0 <= i < j < |s| ==> !Touches(s[i], s[j])
  }

  predicate Free(c: Candidate, usedE: set<nat>, usedA: set<nat>) {
    c.e !in usedE && c.a !in usedA
  }

  function Total(s: seq<Candidate>): real {
    if s == [] then 0.0 else s[0].score + Total(s[1..])
  }

  /** The pairs the loop keeps, walking the sorted candidates. */
  function Greedy(l: seq<Candidate>, usedE: set<nat>, usedA: set<nat>): seq<Candidate> {
    if l == [] then []
    else if !Free(l[0], usedE, usedA) then Greedy(l[1..], usedE, usedA)
    else [l[0]] + Greedy(l[1..], usedE + {l[0].e}, usedA + {l[0].a})
  }

  // ----- sorting

  predicate SamePair(x: Candidate, y: Candidate) {
    x.e == y.e && x.a == y.a
  }

  /** Each pair of records appears once. */
  predicate DistinctPairs(l: seq<Candidate>) {
    forall i, j :: 0 <= i < j < |l| ==> !SamePair(l[i], l[j])
  }

  function Insert(c: Candidate, l: seq<Candidate>): seq<Candidate> {
    if l == [] || Above(c, l[0]) then [c] + l else [l[0]] + Insert(c, l[1..])
  }

  function Sorted(l: seq<Candidate>): seq<Candidate> {
    if l == [] then [] else Insert(l[0], Sorted(l[1..]))
  }

  lemma {:induction false} InsertKeepsOrder(c: Candidate, l: seq<Candidate>)
    requires Descending(l) && forall x :: x in l ==> !SamePair(c, x)
    ensures Descending(Insert(c, l)) && forall x :: x in Insert(c, l) <==> x == c || x in l
  {
    if l != [] && !Above(c, l[0]) {
      InsertKeepsOrder(c, l[1..]);
      var rest := Insert(c, l[1..]);
      assert forall x :: x in l <==> x == l[0] || x in l[1..];
      assert forall x :: x in rest ==> Above(l[0], x);
    }
  }

  lemma {:induction false} SortedIsDescending(l: seq<Candidate>)
    requires DistinctPairs(l)
    ensures Descending(Sorted(l)) && forall x :: x in Sorted(l) <==> x in l
  {
    if l != [] {
      SortedIsDescending(l[1..]);
      InsertKeepsOrder(l[0], Sorted(l[1..]));
      assert forall x :: x in l <==> x == l[0] || x in l[1..];
    }
  }

  // ----- what the greedy choice is

  lemma {:induction false} GreedyIsMatching(l: seq<Candidate>, usedE: set<nat>, usedA: set<nat>)
    ensures IsMatching(Greedy(l, usedE, usedA))
    ensures forall x :: x in Greedy(l, usedE, usedA) ==> x in l && Free(x, usedE, usedA)
  {
    if l != [] {
      if Free(l[0], usedE, usedA) {
        GreedyIsMatching(l[1..], usedE + {l[0].e}, usedA + {l[0].a});
        var rest := Greedy(l[1..], usedE + {l[0].e}, usedA + {l[0].a});
        assert forall x :: x in rest ==> !Touches(l[0], x);
      } else {
        GreedyIsMatching(l[1..], usedE, usedA);
      }
    }
  }

  /** `s` is a matching of listed pairs, and every listed pair left out shares a record with a higher pair of `s`. */
  ghost predicate Stable(l: seq<Candidate>, usedE: set<nat>, usedA: set<nat>, s: set<Candidate>) {
    && (forall x :: x in s ==> x in l && Free(x, usedE, usedA))
    && (forall x, y :: x in s && y in s && x != y ==> !Touches(x, y))
    && (forall c :: c in l && c !in s && Free(c, usedE, usedA) ==> exists d :: d in s && Touches(c, d) && Above(d, c))
  }

  function Elements(l: seq<Candidate>): set<Candidate> {
    set x | x in l
  }

  lemma {:induction false} GreedyIsStable(l: seq<Candidate>, usedE: set<nat>, usedA: set<nat>)
    requires Descending(l)
    ensures Stable(l, usedE, usedA, Elements(Greedy(l, usedE, usedA)))
  {
    GreedyIsMatching(l, usedE, usedA);
    var g := Greedy(l, usedE, usedA);
    if l != [] {
      if Free(l[0], usedE, usedA) {
        var usedE', usedA' := usedE + {l[0].e}, usedA + {l[0].a};
        GreedyIsStable(l[1..], usedE', usedA');
        var rest := Greedy(l[1..], usedE', usedA');
        forall c | c in l && c !in Elements(g) && Free(c, usedE, usedA)
          ensures exists d :: d in Elements(g) && Touches(c, d) && Above(d, c)
        {
          assert l[0] in g && c in l[1..];
          if Free(c, usedE', usedA') {
            var d :| d in Elements(rest) && Touches(c, d) && Above(d, c);
            assert d in Elements(g);
          } else {
            assert l[0] in Elements(g) && Touches(c, l[0]) && Above(l[0], c);
          }
        }
      } else {
        GreedyIsStable(l[1..], usedE, usedA);
        assert forall c :: c in l && c != l[0] ==> c in l[1..];
      }
    }
  }

  /** The greedy matching is the only stable one. */
  lemma {:induction false} OnlyStableMatching(l: seq<Candidate>, usedE: set<nat>, usedA: set<nat>, s: set<Candidate>)
    requires Descending(l) && Stable(l, usedE, usedA, s)
    ensures s == Elements(Greedy(l, usedE, usedA))
  {
    if l == [] {
      assert s == {};
    } else if Free(l[0], usedE, usedA) {
      var usedE', usedA' := usedE + {l[0].e}, usedA + {l[0].a};
      forall d | d in s
        ensures !Above(d, l[0])
      {
        var k :| 0 <= k < |l| && l[k] == d;
      }
      assert l[0] in s;
      var s' := s - {l[0]};
      assert Stable(l[1..], usedE', usedA', s') by {
        forall c | c in l[1..] && c !in s' && Free(c, usedE', usedA')
          ensures exists d :: d in s' && Touches(c, d) && Above(d, c)
        {
          assert c != l[0];
          var d :| d in s && Touches(c, d) && Above(d, c);
          assert d != l[0];
        }
        assert forall x :: x in s' ==> x in l && x != l[0] && !Touches(x, l[0]);
      }
      OnlyStableMatching(l[1..], usedE', usedA', s');
      var rest := Greedy(l[1..], usedE', usedA');
      assert Elements([l[0]] + rest) == {l[0]} + Elements(rest);
    } else {
      assert l[0] !in s;
      assert forall x :: x in s ==> x in l[1..];
      OnlyStableMatching(l[1..], usedE, usedA, s);
    }
  }

  // ----- within a factor of two of the best

  lemma {:induction false} TotalWithout(s: seq<Candidate>, i: nat)
    requires i < |s|
    ensures Total(s) == s[i].score + Total(s[..i] + s[i + 1..])
  {
    if i == 0 {
      assert s[..0] + s[1..] == s[1..];
    } else {
      TotalWithout(s[1..], i - 1);
      var t := s[..i] + s[i + 1..];
      assert t[1..] == s[1..][..i - 1] + s[1..][i..];
    }
  }

  /** Dropping the pair at `i` from a matching drops just that pair. */
  lemma DropPair(s: seq<Candidate>, i: nat) returns (rest: seq<Candidate>)
    requires IsMatching(s) && i < |s|
    ensures IsMatching(rest) && |s| == |rest| + 1 && Total(s) == s[i].score + Total(rest)
    ensures forall x :: x in rest <==> x in s && x != s[i]
  {
    TotalWithout(s, i);
    rest := s[..i] + s[i + 1..];
  }

  lemma DropSharedExpected(s: seq<Candidate>, c: Candidate) returns (rest: seq<Candidate>)
    requires IsMatching(s) && c.score >= 0.0 && forall x :: x in s ==> x.score <= c.score
    ensures IsMatching(rest) && forall x :: x in rest <==> x in s && x.e != c.e
    ensures Total(s) <= Total(rest) + c.score && |s| <= |rest| + 1
  {
    rest := s;
    if exists i :: 0 <= i < |s| && s[i].e == c.e {
      var i :| 0 <= i < |s| && s[i].e == c.e;
      rest := DropPair(s, i);
    }
  }

  lemma DropSharedActual(s: seq<Candidate>, c: Candidate) returns (rest: seq<Candidate>)
    requires IsMatching(s) && c.score >= 0.0 && forall x :: x in s ==> x.score <= c.score
    ensures IsMatching(rest) && forall x :: x in rest <==> x in s && x.a != c.a
    ensures Total(s) <= Total(rest) + c.score && |s| <= |rest| + 1
  {
    rest := s;
    if exists i :: 0 <= i < |s| && s[i].a == c.a {
      var i :| 0 <= i < |s| && s[i].a == c.a;
      rest := DropPair(s, i);
    }
  }

  /** Against any other matching of the same pairs: at least half its total and half its size. */
  lemma {:induction false} GreedyWithinTwo(l: seq<Candidate>, usedE: set<nat>, usedA: set<nat>, other: seq<Candidate>)
    requires Descending(l) && forall x :: x in l ==> x.score >= 0.0
    requires IsMatching(other) && forall i :: 0 <= i < |other| ==> other[i] in l && Free(other[i], usedE, usedA)
    ensures Total(other) <= 2.0 * Total(Greedy(l, usedE, usedA))
    ensures |other| <= 2 * |Greedy(l, usedE, usedA)|
  {
    if l == [] {
    } else if Free(l[0], usedE, usedA) {
      forall x | x in other
        ensures x.score <= l[0].score
      {
        assert x in l;
      }
      var mid := DropSharedExpected(other, l[0]);
      var rest := DropSharedActual(mid, l[0]);
      forall i | 0 <= i < |rest|
        ensures rest[i] in l[1..]
      {
        assert rest[i] in other && rest[i] != l[0];
      }
      GreedyWithinTwo(l[1..], usedE + {l[0].e}, usedA + {l[0].a}, rest);
    } else {
      assert forall i :: 0 <= i < |other| ==> other[i] in l && other[i] != l[0];
      GreedyWithinTwo(l[1..], usedE, usedA, other);
    }
  }

  /** The factor of two is attained, in total and in size at once: one kept pair can displace two of equal score. */
  lemma GreedyCanHalve()
    ensures var l := [Candidate(0.6, 1, 1), Candidate(0.6, 1, 0), Candidate(0.6, 0, 1)];
      var other := [l[1], l[2]];
      && Descending(l) && IsMatching(other)
      && Total(other) == 2.0 * Total(Greedy(l, {}, {})) && |other| == 2 * |Greedy(l, {}, {})|
  {
    var l := [Candidate(0.6, 1, 1), Candidate(0.6, 1, 0), Candidate(0.6, 0, 1)];
    var other := [l[1], l[2]];
    assert {} + {1} == {1};
    assert l[1..] == other && l[1..][1..] == [l[2]] && l[1..][1..][1..] == [];
    assert Greedy(l[1..][1..], {1}, {1}) == [];
    assert Greedy(l[1..], {1}, {1}) == [];
    assert Greedy(l, {}, {}) == [l[0]];
    assert other[1..] == [l[2]] && other[1..][1..] == [];
    assert Total(other) == other[0].score + Total(other[1..]);
  }
}

/** `record_similarity`, `match_records` and `duplicate_count` of scripts/qualify_resume_parser.py. */
module RecordMatching {
  import opened Candidates

  /** A field of a record; a missing field reads as Null. */
  datatype Value = Null | Text(text: string) | Flag(flag: bool)

  type Record = map<string, Value>

  /** The string similarity in [0, 1]; which one does not matter to the matching. */
  type Similarity = (Value, Value) -> real

  function Get(r: Record, field: string): Value {
    if field in r then r[field] else Null
  }

  ghost predicate InUnitRange(sim: Similarity) {
    forall x, y :: 0.0 <= sim(x, y) <= 1.0
  }

  /** The similarities of the identity fields the expected record fills in. */
  function Scores(fields: seq<string>, expected: Record, actual: Record, sim: Similarity): seq<real> {
    if fields == [] then []
    else
      var first := if Get(expected, fields[0]) != Null then [sim(Get(expected, fields[0]), Get(actual, fields[0]))]
        else [];
      first + Scores(fields[1..], expected, actual, sim)
  }

  function Sum(s: seq<real>): real {
    if s == [] then 0.0 else s[0] + Sum(s[1..])
  }

  function RecordSimilarity(fields: seq<string>, expected: Record, actual: Record, sim: Similarity): real {
    var scores := Scores(fields, expected, actual, sim);
    if scores != [] then Sum(scores) / (|scores| as real) else 0.0
  }

  lemma {:induction false} ScoresInRange(fields: seq<string>, expected: Record, actual: Record, sim: Similarity)
    requires InUnitRange(sim)
    ensures var s := Scores(fields, expected, actual, sim); 0.0 <= Sum(s) <= |s| as real
  {
    if fields != [] {
      ScoresInRange(fields[1..], expected, actual, sim);
      var rest := Scores(fields[1..], expected, actual, sim);
      var v := Get(expected, fields[0]);
      if v != Null {
        var x := sim(v, Get(actual, fields[0]));
        assert Scores(fields, expected, actual, sim) == [x] + rest && ([x] + rest)[1..] == rest;
      } else {
        assert Scores(fields, expected, actual, sim) == rest;
      }
    }
  }

  lemma SimilarityInRange(fields: seq<string>, expected: Record, actual: Record, sim: Similarity)
    requires InUnitRange(sim)
    ensures 0.0 <= RecordSimilarity(fields, expected, actual, sim) <= 1.0
  {
    ScoresInRange(fields, expected, actual, sim);
    var s := Scores(fields, expected, actual, sim);
    if s != [] {
      QuotientInRange(Sum(s), |s| as real);
    }
  }

  lemma QuotientInRange(x: real, n: real)
    requires 0.0 <= x <= n && n > 0.0
    ensures 0.0 <= x / n <= 1.0
  {
  }

  // ----- what a pair scores, field by field

  /** The identity fields that the expected record fills in. */
  function Filled(fields: seq<string>, expected: Record): seq<string> {
    if fields == [] then []
    else (if Get(expected, fields[0]) != Null then [fields[0]] else []) + Filled(fields[1..], expected)
  }

  lemma {:induction false} FilledExactly(fields: seq<string>, expected: Record, f: string)
    ensures f in Filled(fields, expected) <==> f in fields && Get(expected, f) != Null
    decreases |fields|
  {
    if fields != [] {
      FilledExactly(fields[1..], expected, f);
    }
  }

  lemma {:induction false} OneScorePerFilledField(fields: seq<string>, expected: Record, actual: Record,
      sim: Similarity)
    ensures |Scores(fields, expected, actual, sim)| == |Filled(fields, expected)|
    decreases |fields|
  {
    if fields != [] {
      OneScorePerFilledField(fields[1..], expected, actual, sim);
    }
  }

  /** A field the expected record leaves out does not matter, wherever it stands. */
  lemma {:induction false} OmittedFieldIsIgnored(before: seq<string>, field: string, after: seq<string>,
      expected: Record, actual: Record, sim: Similarity)
    requires Get(expected, field) == Null
    ensures RecordSimilarity(before + [field] + after, expected, actual, sim) ==
      RecordSimilarity(before + after, expected, actual, sim)
  {
    ScoresJoin(before + [field], after, expected, actual, sim);
    ScoresJoin(before, [field], expected, actual, sim);
    ScoresJoin(before, after, expected, actual, sim);
    assert [field][1..] == [] && Scores([field], expected, actual, sim) == [];
    assert Scores(before + [field] + after, expected, actual, sim) == Scores(before + after, expected, actual, sim);
  }

  lemma {:induction false} ScoresJoin(xs: seq<string>, ys: seq<string>, expected: Record, actual: Record,
      sim: Similarity)
    ensures Scores(xs + ys, expected, actual, sim) ==
      Scores(xs, expected, actual, sim) + Scores(ys, expected, actual, sim)
    decreases |xs|
  {
    if xs == [] {
      assert xs + ys == ys;
    } else {
      assert (xs + ys)[1..] == xs[1..] + ys;
      ScoresJoin(xs[1..], ys, expected, actual, sim);
    }
  }

  lemma {:induction false} SumJoins(s: seq<real>, t: seq<real>)
    ensures Sum(s + t) == Sum(s) + Sum(t)
    decreases |s|
  {
    if s == [] {
      assert s + t == t;
    } else {
      assert (s + t)[1..] == s[1..] + t;
      SumJoins(s[1..], t);
    }
  }

  /** One filled field gives its own similarity. */
  lemma SingleFieldDecides(field: string, expected: Record, actual: Record, sim: Similarity)
    requires Get(expected, field) != Null
    ensures RecordSimilarity([field], expected, actual, sim) == sim(Get(expected, field), Get(actual, field))
  {
    SumAround([], field, [], expected, actual, sim);
    assert [] + [field] + [] == [field] && |Scores([field], expected, actual, sim)| == 1 by {
      assert [field][1..] == [];
    }
  }

  /** Two filled fields weigh the same. */
  lemma TwoFieldsWeighTheSame(first: string, second: string, expected: Record, actual: Record, sim: Similarity)
    requires Get(expected, first) != Null && Get(expected, second) != Null
    ensures 2.0 * RecordSimilarity([first, second], expected, actual, sim) ==
      sim(Get(expected, first), Get(actual, first)) + sim(Get(expected, second), Get(actual, second))
  {
    SumAround([first], second, [], expected, actual, sim);
    SumAround([], first, [], expected, actual, sim);
    assert [first] + [second] + [] == [first, second] && [] + [first] + [] == [first];
    assert |Scores([first, second], expected, actual, sim)| == 2 by {
      assert [first, second][1..] == [second] && [second][1..] == [];
    }
  }

  /** When the actual records differ in one filled field only, the scores differ by that field's difference over the
      number of filled fields. */
  lemma OneFieldReplaced(fields: seq<string>, before: seq<string>, field: string, after: seq<string>,
      expected: Record, actual: Record, other: Record, sim: Similarity)
    requires fields == before + [field] + after && Get(expected, field) != Null
    requires forall f :: f in before + after ==> Get(other, f) == Get(actual, f)
    ensures
      (RecordSimilarity(fields, expected, other, sim) - RecordSimilarity(fields, expected, actual, sim))
        * (|Filled(fields, expected)| as real) ==
      sim(Get(expected, field), Get(other, field)) - sim(Get(expected, field), Get(actual, field))
  {
    hide *;
    SumReplaced(before, field, after, expected, actual, other, sim);
    var x, y := RecordSimilarity(fields, expected, other, sim), RecordSimilarity(fields, expected, actual, sim);
    var n := |Filled(fields, expected)| as real;
    var u, v := Sum(Scores(fields, expected, other, sim)), Sum(Scores(fields, expected, actual, sim));
    assert x * n == u by {
      SimilarityTimesFilled(fields, expected, other, sim);
    }
    assert y * n == v by {
      SimilarityTimesFilled(fields, expected, actual, sim);
    }
    Distributes(x, y, n, u, v);
  }

  lemma SumReplaced(before: seq<string>, field: string, after: seq<string>, expected: Record, actual: Record,
      other: Record, sim: Similarity)
    requires Get(expected, field) != Null
    requires forall f :: f in before + after ==> Get(other, f) == Get(actual, f)
    ensures var fields := before + [field] + after;
      Sum(Scores(fields, expected, other, sim)) - Sum(Scores(fields, expected, actual, sim)) ==
      sim(Get(expected, field), Get(other, field)) - sim(Get(expected, field), Get(actual, field))
  {
    SumAround(before, field, after, expected, actual, sim);
    SumAround(before, field, after, expected, other, sim);
    SameScores(before, expected, actual, other, sim);
    SameScores(after, expected, actual, other, sim);
    hide *;
  }

  lemma Distributes(x: real, y: real, n: real, u: real, v: real)
    requires x * n == u && y * n == v
    ensures (x - y) * n == u - v
  {
  }

  lemma SimilarityTimesFilled(fields: seq<string>, expected: Record, actual: Record, sim: Similarity)
    ensures RecordSimilarity(fields, expected, actual, sim) * (|Filled(fields, expected)| as real) ==
      Sum(Scores(fields, expected, actual, sim))
  {
    OneScorePerFilledField(fields, expected, actual, sim);
    hide Scores, Sum, Filled;
    QuotientTimes(Scores(fields, expected, actual, sim), RecordSimilarity(fields, expected, actual, sim));
    if Scores(fields, expected, actual, sim) == [] {
      EmptySum();
    }
  }

  lemma EmptySum()
    ensures Sum([]) == 0.0
  {
  }

  lemma QuotientTimes(s: seq<real>, q: real)
    requires s != [] ==> q == Sum(s) / (|s| as real)
    ensures s != [] ==> q * (|s| as real) == Sum(s)
  {
    hide Sum;
  }

  lemma SumAround(before: seq<string>, field: string, after: seq<string>, expected: Record, actual: Record,
      sim: Similarity)
    requires Get(expected, field) != Null
    ensures var s := Scores(before + [field] + after, expected, actual, sim);
      && s != []
      && Sum(s) == Sum(Scores(before, expected, actual, sim)) + sim(Get(expected, field), Get(actual, field))
           + Sum(Scores(after, expected, actual, sim))
  {
    var x := sim(Get(expected, field), Get(actual, field));
    var b, a := Scores(before, expected, actual, sim), Scores(after, expected, actual, sim);
    ScoresJoin(before + [field], after, expected, actual, sim);
    ScoresJoin(before, [field], expected, actual, sim);
    assert [field][1..] == [] && Scores([field], expected, actual, sim) == [x];
    SumJoins(b + [x], a);
    SumJoins(b, [x]);
    assert [x][1..] == [] && Sum([x]) == x;
  }

  lemma {:induction false} SameScores(fields: seq<string>, expected: Record, actual: Record, other: Record,
      sim: Similarity)
    requires forall f :: f in fields ==> Get(other, f) == Get(actual, f)
    ensures Scores(fields, expected, other, sim) == Scores(fields, expected, actual, sim)
    decreases |fields|
  {
    if fields != [] {
      SameScores(fields[1..], expected, actual, other, sim);
    }
  }

  /** Equal values are fully alike. */
  ghost predicate Reflexive(sim: Similarity) {
    forall x :: sim(x, x) == 1.0
  }

  /** An actual record that agrees on every filled field scores 1, and 0 when none is filled. */
  lemma AgreementScores(fields: seq<string>, expected: Record, actual: Record, sim: Similarity)
    requires Reflexive(sim)
    requires forall f :: f in fields && Get(expected, f) != Null ==> Get(actual, f) == Get(expected, f)
    ensures RecordSimilarity(fields, expected, actual, sim) == if Filled(fields, expected) != [] then 1.0 else 0.0
  {
    OneScorePerFilledField(fields, expected, actual, sim);
    AllOnes(fields, expected, actual, sim);
    var s := Scores(fields, expected, actual, sim);
    assert RecordSimilarity(fields, expected, actual, sim) == if s != [] then Sum(s) / (|s| as real) else 0.0;
    hide *;
    if s != [] {
      WholeQuotient(|s| as real);
    }
  }

  lemma WholeQuotient(n: real)
    requires n > 0.0
    ensures n / n == 1.0
  {
  }

  lemma {:induction false} AllOnes(fields: seq<string>, expected: Record, actual: Record, sim: Similarity)
    requires Reflexive(sim)
    requires forall f :: f in fields && Get(expected, f) != Null ==> Get(actual, f) == Get(expected, f)
    ensures var s := Scores(fields, expected, actual, sim); Sum(s) == |s| as real
    decreases |fields|
  {
    if fields != [] {
      var rest := Scores(fields[1..], expected, actual, sim);
      AllOnes(fields[1..], expected, actual, sim);
      if Get(expected, fields[0]) != Null {
        assert fields[0] in fields;
        assert Scores(fields, expected, actual, sim) == [1.0] + rest && ([1.0] + rest)[1..] == rest;
      } else {
        assert Scores(fields, expected, actual, sim) == rest;
      }
    }
  }

  /** One collection's records on both sides, and how alike two of them are. */
  datatype Problem = Problem(fields: seq<string>, expected: seq<Record>, actual: seq<Record>, sim: Similarity)

  function Score(p: Problem, e: nat, a: nat): real
    requires e < |p.expected| && a < |p.actual|
  {
    RecordSimilarity(p.fields, p.expected[e], p.actual[a], p.sim)
  }

  /** The pair may be matched: it scores at least 0.6. */
  predicate Eligible(p: Problem, c: Candidate) {
    c.e < |p.expected| && c.a < |p.actual| && c.score == Score(p, c.e, c.a) && c.score >= 0.6
  }

  ghost predicate AllEligible(p: Problem, s: seq<Candidate>) {
    forall i :: 0 <= i < |s| ==> Eligible(p, s[i])
  }

  /** The chosen pairs: a matching, walked from the top, that no eligible pair blocks. */
  ghost predicate Unblocked(p: Problem, chosen: seq<Candidate>) {
    && IsMatching(chosen) && AllEligible(p, chosen) && Descending(chosen)
    && forall c :: Eligible(p, c) && c !in chosen ==> exists d :: d in chosen && Touches(c, d) && Above(d, c)
  }

  /** No matching of eligible pairs has more than twice the total or the size of the chosen one. */
  ghost predicate WithinTwo(p: Problem, chosen: seq<Candidate>) {
    forall other :: IsMatching(other) && AllEligible(p, other) ==>
      Total(other) <= 2.0 * Total(chosen) && |other| <= 2 * |chosen|
  }

  lemma {:induction false} GreedyStaysDescending(l: seq<Candidate>, usedE: set<nat>, usedA: set<nat>)
    requires Descending(l)
    ensures Descending(Greedy(l, usedE, usedA))
  {
    if l != [] {
      if Free(l[0], usedE, usedA) {
        GreedyStaysDescending(l[1..], usedE + {l[0].e}, usedA + {l[0].a});
        GreedyIsMatching(l[1..], usedE + {l[0].e}, usedA + {l[0].a});
        var rest := Greedy(l[1..], usedE + {l[0].e}, usedA + {l[0].a});
        forall j | 0 <= j < |rest|
          ensures Above(l[0], rest[j])
        {
          assert rest[j] in rest;
        }
      } else {
        GreedyStaysDescending(l[1..], usedE, usedA);
      }
    }
  }

  lemma GreedyOnEligible(p: Problem, l: seq<Candidate>)
    requires Descending(l) && forall c :: c in l <==> Eligible(p, c)
    ensures Unblocked(p, Greedy(l, {}, {})) && WithinTwo(p, Greedy(l, {}, {}))
  {
    var chosen := Greedy(l, {}, {});
    GreedyIsMatching(l, {}, {});
    GreedyIsStable(l, {}, {});
    GreedyStaysDescending(l, {}, {});
    forall c | Eligible(p, c) && c !in chosen
      ensures exists d :: d in chosen && Touches(c, d) && Above(d, c)
    {
      var d :| d in Elements(chosen) && Touches(c, d) && Above(d, c);
    }
    forall other | IsMatching(other) && AllEligible(p, other)
      ensures Total(other) <= 2.0 * Total(chosen) && |other| <= 2 * |chosen|
    {
      GreedyWithinTwo(l, {}, {}, other);
    }
  }

  /** Any unblocked matching is the chosen one, so the result does not depend on how it was found. */
  lemma UnblockedIsUnique(p: Problem, l: seq<Candidate>, s: seq<Candidate>)
    requires Descending(l) && forall c :: c in l <==> Eligible(p, c)
    requires Unblocked(p, s)
    ensures Elements(s) == Elements(Greedy(l, {}, {}))
  {
    forall x, y | x in Elements(s) && y in Elements(s) && x != y
      ensures !Touches(x, y)
    {
      var i :| 0 <= i < |s| && s[i] == x;
      var j :| 0 <= j < |s| && s[j] == y;
    }
    forall c | c in l && c !in Elements(s)
      ensures exists d :: d in Elements(s) && Touches(c, d) && Above(d, c)
    {
      var d :| d in s && Touches(c, d) && Above(d, c);
      assert d in Elements(s);
    }
    OnlyStableMatching(l, {}, {}, Elements(s));
  }

  /** A set of pairs as a list. */
  lemma {:induction false} ListOf(s: set<Candidate>) returns (l: seq<Candidate>)
    requires forall x, y :: x in s && y in s && x != y ==> !SamePair(x, y)
    ensures DistinctPairs(l) && forall c :: c in l <==> c in s
    decreases s
  {
    l := [];
    if s != {} {
      var c :| c in s;
      var rest := ListOf(s - {c});
      l := [c] + rest;
      assert forall i :: 0 <= i < |rest| ==> rest[i] in rest;
    }
  }

  lemma EligibleListed(p: Problem) returns (l: seq<Candidate>)
    ensures Descending(l) && forall c :: c in l <==> Eligible(p, c)
  {
    var all := set e: nat, a: nat | e < |p.expected| && a < |p.actual|
      && Score(p, e, a) >= 0.6 :: Candidate(Score(p, e, a), e, a);
    forall c | Eligible(p, c)
      ensures c in all
    {
      assert c == Candidate(Score(p, c.e, c.a), c.e, c.a);
    }
    var listed := ListOf(all);
    SortedIsDescending(listed);
    l := Sorted(listed);
  }

  /** Two strictly ordered lists of the same pairs are one. */
  lemma {:induction false} SameOrder(s: seq<Candidate>, t: seq<Candidate>)
    requires Descending(s) && Descending(t) && Elements(s) == Elements(t)
    ensures s == t
  {
    if s != [] {
      assert s[0] in Elements(t);
    }
    if t != [] {
      assert t[0] in Elements(s);
    }
    if s != [] && t != [] {
      forall x
        ensures x in Elements(s[1..]) <==> x in Elements(t[1..])
      {
        assert x in Elements(s) <==> x in Elements(t);
        assert x in s <==> x == s[0] || x in s[1..];
        assert x in t <==> x == t[0] || x in t[1..];
      }
      SameOrder(s[1..], t[1..]);
    }
  }

  /** The one matching that no eligible pair blocks, in its order. */
  ghost function Matching(p: Problem): (m: seq<Candidate>)
    ensures Unblocked(p, m) && WithinTwo(p, m)
  {
    UnblockedExists(p);
    var m :| Unblocked(p, m) && WithinTwo(p, m);
    m
  }

  lemma UnblockedExists(p: Problem)
    ensures exists m :: Unblocked(p, m) && WithinTwo(p, m)
  {
    var l := EligibleListed(p);
    GreedyOnEligible(p, l);
  }

  lemma MatchingIsUnique(p: Problem, s: seq<Candidate>)
    requires Unblocked(p, s)
    ensures s == Matching(p)
  {
    var l := EligibleListed(p);
    UnblockedIsUnique(p, l, s);
    UnblockedIsUnique(p, l, Matching(p));
    SameOrder(s, Matching(p));
  }

  // ----- a faithful parse

  /** Each of the first `n` records with its own copy, the last one first. */
  function Diagonal(n: nat): seq<Candidate> {
    seq(n, i requires 0 <= i < n => Candidate(1.0, n - 1 - i, n - 1 - i))
  }

  /** The actual record agrees on every identity field that the expected one fills in, and it fills in one. */
  predicate Agrees(fields: seq<string>, expected: Record, actual: Record) {
    && Filled(fields, expected) != []
    && forall f :: f in fields && Get(expected, f) != Null ==> Get(actual, f) == Get(expected, f)
  }

  /** When the parser returns the expected records, identifiable and in their order, each is matched with its own copy,
      however alike some of them are. */
  lemma FaithfulParseIsMatched(p: Problem)
    requires |p.actual| == |p.expected| && Reflexive(p.sim) && InUnitRange(p.sim)
    requires forall i :: 0 <= i < |p.expected| ==> Agrees(p.fields, p.expected[i], p.actual[i])
    ensures Matching(p) == Diagonal(|p.expected|)
  {
    var n := |p.expected|;
    var d := Diagonal(n);
    forall e: nat | e < n
      ensures Eligible(p, Candidate(1.0, e, e)) && Candidate(1.0, e, e) in d
    {
      AgreementScores(p.fields, p.expected[e], p.actual[e], p.sim);
      assert d[n - 1 - e] == Candidate(1.0, e, e);
    }
    forall c | Eligible(p, c) && c !in d
      ensures exists x :: x in d && Touches(c, x) && Above(x, c)
    {
      SimilarityInRange(p.fields, p.expected[c.e], p.actual[c.a], p.sim);
      assert c != Candidate(1.0, c.e, c.e);
      var k := if c.score < 1.0 || c.e > c.a then c.e else c.a;
      assert Candidate(1.0, k, k) in d;
    }
    MatchingIsUnique(p, d);
  }

  /** With two identity fields filled in, a pair may be matched from a similarity of 1.2 in all; with one, from 0.6. */
  lemma EligibleFrom(p: Problem, e: nat, a: nat)
    requires e < |p.expected| && a < |p.actual| && |p.fields| == 2 && Get(p.expected[e], p.fields[0]) != Null
    ensures var (x, y) := (p.expected[e], p.actual[a]);
      var first := p.sim(Get(x, p.fields[0]), Get(y, p.fields[0]));
      Eligible(p, Candidate(Score(p, e, a), e, a)) <==>
        if Get(x, p.fields[1]) == Null then first >= 0.6
        else first + p.sim(Get(x, p.fields[1]), Get(y, p.fields[1])) >= 1.2
  {
    var (x, y) := (p.expected[e], p.actual[a]);
    assert p.fields == [p.fields[0], p.fields[1]];
    if Get(x, p.fields[1]) == Null {
      OmittedFieldIsIgnored([p.fields[0]], p.fields[1], [], x, y, p.sim);
      assert [p.fields[0]] + [p.fields[1]] + [] == p.fields && [p.fields[0]] + [] == [p.fields[0]];
      SingleFieldDecides(p.fields[0], x, y, p.sim);
    } else {
      TwoFieldsWeighTheSame(p.fields[0], p.fields[1], x, y, p.sim);
    }
  }

  /** An actual record that agrees on every field the expected one fills in may be matched. */
  lemma AgreementIsEligible(p: Problem, e: nat, a: nat)
    requires e < |p.expected| && a < |p.actual| && Reflexive(p.sim)
    requires forall f :: f in p.fields && Get(p.expected[e], f) != Null ==>
      Get(p.actual[a], f) == Get(p.expected[e], f)
    ensures Eligible(p, Candidate(1.0, e, a)) <==> Filled(p.fields, p.expected[e]) != []
  {
    AgreementScores(p.fields, p.expected[e], p.actual[a], p.sim);
  }

  // ----- the loops

  predicate InScope(p: Problem, c: Candidate, e: nat, a: nat) {
    c.e < e || (c.e == e && c.a < a)
  }

  method FindCandidates(p: Problem) returns (candidates: seq<Candidate>)
    ensures DistinctPairs(candidates) && forall c :: c in candidates <==> Eligible(p, c)
  {
    candidates := [];
    for e := 0 to |p.expected|
      invariant DistinctPairs(candidates)
      invariant forall c :: c in candidates <==> Eligible(p, c) && InScope(p, c, e, 0)
    {
      for a := 0 to |p.actual|
        invariant DistinctPairs(candidates)
        invariant forall c :: c in candidates <==> Eligible(p, c) && InScope(p, c, e, a)
      {
        var score := RecordSimilarity(p.fields, p.expected[e], p.actual[a], p.sim);
        if score >= 0.6 {
          assert forall i :: 0 <= i < |candidates| ==> candidates[i] in candidates;
          candidates := candidates + [Candidate(score, e, a)];
        }
      }
    }
  }

  /** The indices below `n` outside `used`, ascending. */
  function Unused(n: nat, used: set<nat>): seq<nat> {
    if n == 0 then [] else Unused(n - 1, used) + if n - 1 !in used then [n - 1] else []
  }

  lemma {:induction false} UnusedCounts(n: nat, used: set<nat>)
    requires forall k :: k in used ==> k < n
    ensures |Unused(n, used)| + |used| == n
  {
    if n > 0 {
      var below := used - {n - 1};
      UnusedCounts(n - 1, below);
      UnusedSame(n - 1, used, below);
    }
  }

  lemma {:induction false} UnusedSame(n: nat, used: set<nat>, other: set<nat>)
    requires forall k :: 0 <= k < n ==> (k in used <==> k in other)
    ensures Unused(n, used) == Unused(n, other)
  {
    if n > 0 {
      UnusedSame(n - 1, used, other);
    }
  }

  function Pairs(s: seq<Candidate>): seq<(nat, nat)> {
    seq(|s|, i requires 0 <= i < |s| => (s[i].e, s[i].a))
  }

  function UsedExpected(s: seq<Candidate>): set<nat> {
    set c | c in s :: c.e
  }

  function UsedActual(s: seq<Candidate>): set<nat> {
    set c | c in s :: c.a
  }

  lemma {:induction false} UsedExpectedCount(s: seq<Candidate>)
    requires IsMatching(s)
    ensures |UsedExpected(s)| == |s|
  {
    if s != [] {
      UsedExpectedCount(s[1..]);
      assert s[0].e !in UsedExpected(s[1..]);
      assert UsedExpected(s) == {s[0].e} + UsedExpected(s[1..]) by {
        assert s == [s[0]] + s[1..];
      }
    }
  }

  lemma {:induction false} UsedActualCount(s: seq<Candidate>)
    requires IsMatching(s)
    ensures |UsedActual(s)| == |s|
  {
    if s != [] {
      UsedActualCount(s[1..]);
      assert s[0].a !in UsedActual(s[1..]);
      assert UsedActual(s) == {s[0].a} + UsedActual(s[1..]) by {
        assert s == [s[0]] + s[1..];
      }
    }
  }

  lemma GreedyFromUsed(l: seq<Candidate>, i: nat, usedE: set<nat>, usedA: set<nat>)
    requires i < |l|
    ensures Greedy(l[i..], usedE, usedA) ==
      if Free(l[i], usedE, usedA) then [l[i]] + Greedy(l[i + 1..], usedE + {l[i].e}, usedA + {l[i].a})
      else Greedy(l[i + 1..], usedE, usedA)
  {
    assert l[i..][0] == l[i] && l[i..][1..] == l[i + 1..];
  }

  /** The loop over the sorted candidates with its two sets of used records. */
  method KeepFree(l: seq<Candidate>)
    returns (matches: seq<(nat, nat)>, usedE: set<nat>, usedA: set<nat>, ghost chosen: seq<Candidate>)
    ensures chosen == Greedy(l, {}, {}) && matches == Pairs(chosen)
    ensures usedE == UsedExpected(chosen) && usedA == UsedActual(chosen)
  {
    usedE, usedA := {}, {};
    matches, chosen := [], [];
    assert l[0..] == l && [] + Greedy(l, {}, {}) == Greedy(l, {}, {});
    assert UsedExpected([]) == {} && UsedActual([]) == {} && Pairs([]) == [];
    hide Greedy, UsedExpected, UsedActual, Pairs;
    for i := 0 to |l|
      invariant usedE == UsedExpected(chosen) && usedA == UsedActual(chosen) && matches == Pairs(chosen)
      invariant Greedy(l, {}, {}) == chosen + Greedy(l[i..], usedE, usedA)
    {
      GreedyFromUsed(l, i, usedE, usedA);
      if l[i].e in usedE || l[i].a in usedA {
        continue;
      }
      UsedGrows(chosen, l[i]);
      Regrouped(chosen, l[i], Greedy(l[i + 1..], usedE + {l[i].e}, usedA + {l[i].a}));
      usedE := usedE + {l[i].e};
      usedA := usedA + {l[i].a};
      matches := matches + [(l[i].e, l[i].a)];
      chosen := chosen + [l[i]];
    }
    NothingLeft(l, usedE, usedA);
  }

  lemma Regrouped(s: seq<Candidate>, c: Candidate, rest: seq<Candidate>)
    ensures s + ([c] + rest) == (s + [c]) + rest
  {
  }

  lemma NothingLeft(l: seq<Candidate>, usedE: set<nat>, usedA: set<nat>)
    ensures Greedy(l[|l|..], usedE, usedA) == []
  {
  }

  lemma UsedGrows(s: seq<Candidate>, c: Candidate)
    ensures UsedExpected(s + [c]) == UsedExpected(s) + {c.e}
    ensures UsedActual(s + [c]) == UsedActual(s) + {c.a}
    ensures Pairs(s + [c]) == Pairs(s) + [(c.e, c.a)]
  {
    assert forall x :: x in s + [c] <==> x in s || x == c;
  }

  /** The pairs chosen, the expected records left out and the actual records left over. */
  method MatchRecords(p: Problem)
    returns (matches: seq<(nat, nat)>, omitted: seq<nat>, hallucinated: seq<nat>, ghost chosen: seq<Candidate>)
    ensures chosen == Matching(p) && Unblocked(p, chosen) && WithinTwo(p, chosen)
    ensures matches == Pairs(chosen)
    ensures omitted == Unused(|p.expected|, UsedExpected(chosen))
    ensures hallucinated == Unused(|p.actual|, UsedActual(chosen))
    ensures |matches| + |omitted| == |p.expected| && |matches| + |hallucinated| == |p.actual|
  {
    var candidates := FindCandidates(p);
    var l := Sorted(candidates);
    SortedIsDescending(candidates);
    var usedE, usedA;
    matches, usedE, usedA, chosen := KeepFree(l);
    GreedyOnEligible(p, l);
    MatchingIsUnique(p, chosen);
    omitted := Unused(|p.expected|, usedE);
    hallucinated := Unused(|p.actual|, usedA);
    SidesAddUp(p, chosen);
  }

  lemma SidesAddUp(p: Problem, chosen: seq<Candidate>)
    requires IsMatching(chosen) && AllEligible(p, chosen)
    ensures |chosen| + |Unused(|p.expected|, UsedExpected(chosen))| == |p.expected|
    ensures |chosen| + |Unused(|p.actual|, UsedActual(chosen))| == |p.actual|
  {
    UsedExpectedCount(chosen);
    UsedActualCount(chosen);
    UnusedCounts(|p.expected|, UsedExpected(chosen));
    UnusedCounts(|p.actual|, UsedActual(chosen));
  }

  // ----- duplicates

  /** The normalised identity of a record; records with no identity at all are not counted. */
  type Key = seq<string>

  predicate HasIdentity(key: Key) {
    exists i :: 0 <= i < |key| && key[i] != ""
  }

  function Identified(keys: seq<Key>): seq<Key> {
    if keys == [] then [] else (if HasIdentity(keys[0]) then [keys[0]] else []) + Identified(keys[1..])
  }

  lemma {:induction false} DistinctKeysBelow(keys: seq<Key>)
    ensures |set k | k in keys| <= |keys|
  {
    if keys != [] {
      DistinctKeysBelow(keys[1..]);
      assert (set k | k in keys) == {keys[0]} + (set k | k in keys[1..]) by {
        assert forall x :: x in keys <==> x == keys[0] || x in keys[1..];
      }
    }
  }

  /** How many identified records repeat an earlier identity. */
  function Repeats(keys: seq<Key>): nat {
    var identified := Identified(keys);
    DistinctKeysBelow(identified);
    |identified| - |set k | k in identified|
  }

  /** `duplicate_count`: the counts of all identities, less one each. */
  method DuplicateCount(keys: seq<Key>) returns (count: nat)
    ensures count == Repeats(keys) && count <= |keys|
  {
    var identified := Identified(keys);
    var counts := multiset(identified);
    var distinct := set k | k in identified;
    var rest := distinct;
    count := 0;
    ghost var left := counts;
    assert |counts| == |identified|;
    while rest != {}
      invariant rest <= distinct
      invariant forall k :: k in rest ==> left[k] == counts[k] > 0
      invariant forall k :: k !in rest ==> left[k] == 0
      invariant count + |distinct| + |left| == |counts| + |rest|
      decreases rest
    {
      var k :| k in rest;
      if counts[k] > 1 {
        count := count + (counts[k] - 1);
      }
      left := left[k := 0];
      rest := rest - {k};
    }
    assert left == multiset{};
    IdentifiedShorter(keys);
  }

  lemma {:induction false} IdentifiedShorter(keys: seq<Key>)
    ensures |Identified(keys)| <= |keys|
  {
    if keys != [] {
      IdentifiedShorter(keys[1..]);
    }
  }
}
