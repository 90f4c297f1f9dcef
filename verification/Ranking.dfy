/**
 The ranking of findings, and the only influence a model's answer has on it.
 */
module Ranking {
  import opened Products
  import opened Text
  import Sorting

  /** `callers` counts the callers of the symbol it is about, `weight` belongs to its relevance. */
  datatype Finding = Finding(id: string, confidence: real, severity: real, callers: nat, weight: real, score: real)

  /** Rounding to four decimals, for confidences, and to six, for scores. */
  datatype Rounding = Rounding(four: real -> real, six: real -> real)

  const HALF_STEP: real := 0.00005

  /** To four decimals: to the nearest step, so small values go to zero. To six: any monotone function. */
  ghost predicate Sound(r: Rounding) {
    && (forall x :: x - HALF_STEP <= r.four(x) <= x + HALF_STEP)
    && (forall x :: 0.0 <= x < HALF_STEP ==> r.four(x) == 0.0)
    && (forall x, y :: x <= y ==> r.six(x) <= r.six(y))
  }

  predicate WellFormed(f: Finding, widest: nat) {
    0.0 <= f.confidence && 0.0 <= f.severity && 0.0 <= f.weight && f.callers <= widest
  }

  // ---------------------------------------------------------------- the order --

  /** Higher scores first, ties by id. */
  predicate Ahead(a: Finding, b: Finding) {
    a.score > b.score || (a.score == b.score && Precedes(a.id, b.id))
  }

  ghost predicate InOrder(s: seq<Finding>) {
    forall i, j :: 0 <= i < j < |s| ==> !Ahead(s[j], s[i])
  }

  ghost predicate DistinctIds(s: seq<Finding>) {
    forall i, j :: 0 <= i < j < |s| ==> s[i].id != s[j].id
  }

  predicate NotBehind(a: Finding, b: Finding) {
    !Ahead(b, a)
  }

  /** `sorted`, which is stable. */
  function Sorted(s: seq<Finding>): seq<Finding> {
    Sorting.Sorted(NotBehind, s)
  }

  lemma AheadIsAnOrder(a: Finding, b: Finding, c: Finding)
    ensures !Ahead(a, b) && !Ahead(b, c) ==> !Ahead(a, c)
    ensures !(Ahead(a, b) && Ahead(b, a))
    ensures a.id != b.id ==> Ahead(a, b) || Ahead(b, a)
  {
    PrecedesIsTotal(a.id, b.id);
    PrecedesIsTotal(b.id, c.id);
    PrecedesIsTotal(a.id, c.id);
    if Precedes(c.id, b.id) && Precedes(b.id, a.id) {
      PrecedesIsTransitive(c.id, b.id, a.id);
    }
  }

  lemma SortedIsSorted(s: seq<Finding>)
    ensures InOrder(Sorted(s)) && multiset(Sorted(s)) == multiset(s)
  {
    forall a, b, c ensures (NotBehind(a, b) || NotBehind(b, a))
      && (NotBehind(a, b) && NotBehind(b, c) ==> NotBehind(a, c)) {
      AheadIsAnOrder(a, b, c);
      AheadIsAnOrder(c, b, a);
    }
    Sorting.SortedIsOrdered(NotBehind, s);
    Sorting.SortedPermutes(NotBehind, s);
    assert Sorting.Ordered(NotBehind, Sorted(s));
  }

  // ------------------------------------------------------------------ scores --

  /** Half for a symbol nobody calls, one for the one most called. */
  function Centrality(callers: nat, widest: nat): real {
    if widest == 0 then 0.5 else 0.5 + 0.5 * (callers as real / widest as real)
  }

  function Importance(confidence: real, severity: real, centrality: real, weight: real): real {
    confidence * severity * centrality * weight
  }

  function Score(r: Rounding, widest: nat, f: Finding): real {
    r.six(Importance(f.confidence, f.severity, Centrality(f.callers, widest), f.weight))
  }

  function Scored(r: Rounding, widest: nat, f: Finding): Finding {
    f.(score := Score(r, widest, f))
  }

  function ScoredAll(r: Rounding, widest: nat, s: seq<Finding>): seq<Finding> {
    seq(|s|, i requires 0 <= i < |s| => Scored(r, widest, s[i]))
  }

  /** `_rank` */
  function Rank(r: Rounding, widest: nat, s: seq<Finding>): seq<Finding> {
    Sorted(ScoredAll(r, widest, s))
  }

  /** The demotion of a finding that an adjudication shows to be misleading. */
  function Demoted(r: Rounding, misleading: set<string>, f: Finding): Finding {
    if f.id in misleading then f.(confidence := r.four(f.confidence * 0.5)) else f
  }

  function DemotedAll(r: Rounding, misleading: set<string>, s: seq<Finding>): seq<Finding> {
    seq(|s|, i requires 0 <= i < |s| => Demoted(r, misleading, s[i]))
  }

  /** The ranking after an adjudication with these findings found misleading. */
  function Reranked(r: Rounding, widest: nat, misleading: set<string>, ranked: seq<Finding>): seq<Finding> {
    Rank(r, widest, DemotedAll(r, misleading, ranked))
  }

  lemma CentralityIsPositive(callers: nat, widest: nat)
    requires callers <= widest
    ensures 0.5 <= Centrality(callers, widest) <= 1.0
  {
    if widest > 0 {
      var q := callers as real / widest as real;
      assert q * widest as real == callers as real;
      Share(q, callers as real, widest as real);
    }
  }

  lemma Share(q: real, part: real, whole: real)
    requires q * whole == part && 0.0 <= part <= whole && 0.0 < whole
    ensures 0.0 <= q <= 1.0
  {
    TimesPositive(q, whole);
  }

  lemma TimesPositive(q: real, whole: real)
    requires 0.0 < whole
    ensures q < 0.0 ==> q * whole < 0.0
    ensures q > 1.0 ==> q * whole > whole
  {
    if q > 1.0 {
      Scale(1.0, q, whole);
    }
  }

  /** Less confidence never scores higher. */
  lemma ScoreFollowsConfidence(r: Rounding, widest: nat, f: Finding, confidence: real)
    requires Sound(r) && WellFormed(f, widest) && confidence <= f.confidence
    ensures Score(r, widest, f.(confidence := confidence)) <= Score(r, widest, f)
  {
    var c := Centrality(f.callers, widest);
    CentralityIsPositive(f.callers, widest);
    Scale(confidence, f.confidence, f.severity);
    Scale(confidence * f.severity, f.confidence * f.severity, c);
    Scale(confidence * f.severity * c, f.confidence * f.severity * c, f.weight);
  }

  lemma DemotionNeverRaises(r: Rounding, misleading: set<string>, f: Finding)
    requires Sound(r) && 0.0 <= f.confidence
    ensures Demoted(r, misleading, f).confidence <= f.confidence
  {
    assert 2.0 * HALF_STEP == 0.0001;
    if f.confidence < 0.0001 {
      assert r.four(f.confidence * 0.5) == 0.0;
    } else {
      assert r.four(f.confidence * 0.5) <= f.confidence * 0.5 + HALF_STEP;
    }
  }

  // -------------------------------------------------------------- main results --

  /** The findings are the same ones, only demoted and scored: none is added, removed or changed otherwise. */
  lemma FindingsSurvive(r: Rounding, widest: nat, misleading: set<string>, ranked: seq<Finding>)
    ensures var out := Reranked(r, widest, misleading, ranked);
            && multiset(out) == multiset(ScoredAll(r, widest, DemotedAll(r, misleading, ranked)))
            && InOrder(out) && |out| == |ranked|
  {
    var scored := ScoredAll(r, widest, DemotedAll(r, misleading, ranked));
    SortedIsSorted(scored);
    assert |multiset(scored)| == |scored| && |multiset(Sorted(scored))| == |Sorted(scored)|;
  }

  /** A finding that is not demoted never falls below one it outranked. */
  lemma LeadIsKept(r: Rounding, widest: nat, misleading: set<string>, findings: seq<Finding>, i: nat, j: nat,
                   i': nat, j': nat)
    requires Sound(r) && DistinctIds(findings) && forall f <- findings :: WellFormed(f, widest)
    requires var ranked := Rank(r, widest, findings);
             i < j < |ranked| && ranked[i].id !in misleading
    requires var ranked, out := Rank(r, widest, findings), Reranked(r, widest, misleading, Rank(r, widest, findings));
             i' < |out| && j' < |out| && out[i'].id == ranked[i].id && out[j'].id == ranked[j].id
    ensures i' < j'
  {
    var ranked := Rank(r, widest, findings);
    var out := Reranked(r, widest, misleading, ranked);
    RankedFacts(r, widest, findings);
    var a, b := ranked[i], ranked[j];
    var a', b' := Scored(r, widest, Demoted(r, misleading, a)), Scored(r, widest, Demoted(r, misleading, b));
    RerankedIs(r, widest, misleading, ranked, i, i');
    RerankedIs(r, widest, misleading, ranked, j, j');
    assert out[i'] == a' && out[j'] == b';
    assert a'.score == a.score;
    DemotionNeverRaises(r, misleading, b);
    ScoreFollowsConfidence(r, widest, b, Demoted(r, misleading, b).confidence);
    AheadIsAnOrder(a, b, b);
    AheadIsAnOrder(a', b', b');
    FindingsSurvive(r, widest, misleading, ranked);
  }

  lemma ScoreIsKept(r: Rounding, widest: nat, f: Finding)
    ensures Scored(r, widest, f).score == Score(r, widest, Scored(r, widest, f)) == Score(r, widest, f)
  {
  }

  /** The ranked findings are scored, well-formed, in order and still distinct. */
  lemma RankedFacts(r: Rounding, widest: nat, findings: seq<Finding>)
    requires DistinctIds(findings) && forall f <- findings :: WellFormed(f, widest)
    ensures var ranked := Rank(r, widest, findings);
            && InOrder(ranked) && DistinctIds(ranked)
            && forall f <- ranked :: WellFormed(f, widest) && f.score == Score(r, widest, f)
  {
    var scored := ScoredAll(r, widest, findings);
    SortedIsSorted(scored);
    PermutedIds(scored, Sorted(scored));
    forall f <- Sorted(scored) ensures WellFormed(f, widest) && f.score == Score(r, widest, f) {
      assert f in multiset(Sorted(scored));
      var k :| 0 <= k < |scored| && scored[k] == f;
      assert findings[k] in findings;
      ScoreIsKept(r, widest, findings[k]);
    }
  }

  /** Rearranging findings with distinct ids keeps them distinct. */
  lemma {:induction false} PermutedIds(s: seq<Finding>, t: seq<Finding>)
    requires multiset(s) == multiset(t) && DistinctIds(s)
    ensures DistinctIds(t)
  {
    forall i, j | 0 <= i < j < |t| ensures t[i].id != t[j].id {
      assert t[i] in multiset(t) && t[j] in multiset(t);
      var k :| 0 <= k < |s| && s[k] == t[i];
      var l :| 0 <= l < |s| && s[l] == t[j];
      if k == l {
        assert t == t[..j] + [t[j]] + t[j + 1..];
        assert t[i] in t[..j];
        assert multiset(t)[t[i]] >= 2;
        OnceOnly(s, k);
      }
    }
  }

  lemma OnceOnly(s: seq<Finding>, k: nat)
    requires DistinctIds(s) && k < |s|
    ensures multiset(s)[s[k]] == 1
  {
    assert s == s[..k] + [s[k]] + s[k + 1..];
    assert s[k] !in s[..k] && s[k] !in s[k + 1..];
  }

  /** The finding of the new ranking with an old finding's id is that finding, demoted and scored. */
  lemma RerankedIs(r: Rounding, widest: nat, misleading: set<string>, ranked: seq<Finding>, i: nat, i': nat)
    requires DistinctIds(ranked) && i < |ranked| && i' < |Reranked(r, widest, misleading, ranked)|
    requires Reranked(r, widest, misleading, ranked)[i'].id == ranked[i].id
    ensures Reranked(r, widest, misleading, ranked)[i'] == Scored(r, widest, Demoted(r, misleading, ranked[i]))
  {
    var scored := ScoredAll(r, widest, DemotedAll(r, misleading, ranked));
    var out := Reranked(r, widest, misleading, ranked);
    FindingsSurvive(r, widest, misleading, ranked);
    assert out[i'] in multiset(out);
    var k :| 0 <= k < |scored| && scored[k] == out[i'];
    assert ranked[k].id == ranked[i].id;
  }

  /** The order is total: the same findings in any order are ranked alike. */
  lemma RankIsDetermined(r: Rounding, widest: nat, s: seq<Finding>, t: seq<Finding>)
    requires multiset(s) == multiset(t) && DistinctIds(s)
    ensures Rank(r, widest, s) == Rank(r, widest, t)
  {
    var a, b := ScoredAll(r, widest, s), ScoredAll(r, widest, t);
    PermutedIds(s, t);
    SortedIsSorted(a);
    SortedIsSorted(b);
    SameLength(s, t);
    SameLength(Sorted(a), a);
    SameLength(Sorted(b), b);
    PermutedIds(a, Sorted(a));
    PermutedIds(b, Sorted(b));
    forall f ensures f in Sorted(a) <==> f in Sorted(b) {
      assert f in Sorted(a) <==> f in multiset(Sorted(a));
      assert f in Sorted(b) <==> f in multiset(Sorted(b));
      SameScored(r, widest, s, t, f);
      SameScored(r, widest, t, s, f);
    }
    OrderIsUnique(Sorted(a), Sorted(b));
  }

  lemma SameLength(s: seq<Finding>, t: seq<Finding>)
    requires multiset(s) == multiset(t)
    ensures |s| == |t|
  {
    assert |multiset(s)| == |s| && |multiset(t)| == |t|;
  }

  lemma SameScored(r: Rounding, widest: nat, s: seq<Finding>, t: seq<Finding>, f: Finding)
    requires multiset(s) == multiset(t)
    ensures f in ScoredAll(r, widest, s) ==> f in ScoredAll(r, widest, t)
  {
    if f in ScoredAll(r, widest, s) {
      var i :| 0 <= i < |s| && Scored(r, widest, s[i]) == f;
      assert s[i] in multiset(s);
      var j :| 0 <= j < |t| && t[j] == s[i];
      assert ScoredAll(r, widest, t)[j] == f;
    }
  }

  lemma {:induction false} OrderIsUnique(a: seq<Finding>, b: seq<Finding>)
    requires InOrder(a) && InOrder(b) && DistinctIds(a) && DistinctIds(b)
    requires |a| == |b| && forall f :: f in a <==> f in b
    ensures a == b
    decreases |a|
  {
    if a != [] {
      assert a[0] in b;
      assert b[0] in a;
      FirstIsFirst(a, b);
      forall f ensures f in a[1..] <==> f in b[1..] {
        TailHas(a, f);
        TailHas(b, f);
      }
      OrderIsUnique(a[1..], b[1..]);
      assert a == [a[0]] + a[1..] && b == [b[0]] + b[1..];
    }
  }

  lemma FirstIsFirst(a: seq<Finding>, b: seq<Finding>)
    requires InOrder(a) && InOrder(b) && DistinctIds(a) && DistinctIds(b)
    requires a != [] && b != [] && a[0] in b && b[0] in a
    ensures a[0] == b[0]
  {
    AheadIsAnOrder(a[0], b[0], b[0]);
    var i :| 0 <= i < |a| && a[i] == b[0];
    var j :| 0 <= j < |b| && b[j] == a[0];
  }

  lemma TailHas(a: seq<Finding>, f: Finding)
    requires a != [] && DistinctIds(a)
    ensures f in a[1..] <==> f in a && f != a[0]
  {
    assert a == [a[0]] + a[1..];
  }
}
