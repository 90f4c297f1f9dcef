/**
 The ranking on the findings themselves, and what of a model's answers reaches it.
 */
module Reranking {
  import opened Adjudication
  import opened AnswerResults
  import opened Products
  import opened Ranking
  import opened Text

  // ----------------------------------------------------------------- the ranking --

  /** The highest score comes first, and of equal ones the smallest id. */
  lemma HighestComesFirst(r: Rounding, widest: nat, findings: seq<Finding>, i: nat, j: nat)
    requires DistinctIds(findings) && forall f <- findings :: WellFormed(f, widest)
    requires i < j < |Rank(r, widest, findings)|
    ensures var a, b := Rank(r, widest, findings)[i], Rank(r, widest, findings)[j];
            a.score > b.score || (a.score == b.score && Precedes(a.id, b.id))
  {
    RankedFacts(r, widest, findings);
    AheadIsAnOrder(Rank(r, widest, findings)[i], Rank(r, widest, findings)[j], Rank(r, widest, findings)[j]);
  }

  /** Every score is the rounded product of confidence, severity, centrality and weight, where the centrality
      is halfway between one and the callers' part of those the most called symbol has. */
  lemma ScoresAreProducts(r: Rounding, widest: nat, findings: seq<Finding>, f: Finding)
    returns (centrality: real, product: real)
    requires DistinctIds(findings) && forall g <- findings :: WellFormed(g, widest)
    requires f in Rank(r, widest, findings)
    ensures f.score == r.six(product) && product == f.confidence * f.severity * centrality * f.weight
    ensures if widest == 0 then centrality == 0.5
            else centrality * (widest as real + widest as real) == widest as real + f.callers as real
  {
    RankedFacts(r, widest, findings);
    centrality := Centrality(f.callers, widest);
    product := Importance(f.confidence, f.severity, centrality, f.weight);
    if widest != 0 {
      Halfway(widest as real, f.callers as real);
    }
  }

  lemma Halfway(widest: real, callers: real)
    requires widest > 0.0
    ensures (0.5 + 0.5 * (callers / widest)) * (widest + widest) == widest + callers
  {
    Undo(callers, widest);
    OfHalves(callers / widest, widest);
  }

  lemma OfHalves(part: real, whole: real)
    ensures (0.5 + 0.5 * part) * (whole + whole) == whole + part * whole
  {
  }

  /** With at least as much of everything, a finding scores at least as high. */
  lemma MoreScoresHigher(r: Rounding, widest: nat, f: Finding, g: Finding)
    requires Ranking.Sound(r) && WellFormed(f, widest) && WellFormed(g, widest)
    requires f.confidence <= g.confidence && f.severity <= g.severity && f.callers <= g.callers && f.weight <= g.weight
    ensures Score(r, widest, f) <= Score(r, widest, g)
  {
    var c, d := Centrality(f.callers, widest), Centrality(g.callers, widest);
    CentralityIsPositive(f.callers, widest);
    CentralityGrows(f.callers, g.callers, widest);
    BothLarger(f.confidence, g.confidence, f.severity, g.severity);
    BothLarger(f.confidence * f.severity, g.confidence * g.severity, c, d);
    BothLarger(f.confidence * f.severity * c, g.confidence * g.severity * d, f.weight, g.weight);
  }

  lemma BothLarger(a: real, b: real, x: real, y: real)
    requires 0.0 <= a <= b && 0.0 <= x <= y
    ensures 0.0 <= a * x <= b * y
  {
    Scale(a, b, x);
    Scale(x, y, b);
    FactorBound(x, a, a);
  }

  lemma CentralityGrows(few: nat, many: nat, widest: nat)
    requires few <= many
    ensures Centrality(few, widest) <= Centrality(many, widest)
  {
    if widest != 0 {
      Undo(few as real, widest as real);
      Undo(many as real, widest as real);
      Cancel(few as real / widest as real, many as real / widest as real, widest as real);
    }
  }

  // ------------------------------------------------------------------ the answers --

  /** The findings that the kept verdicts call false positives. */
  function Misleading(verdicts: seq<Verdict>): set<string> {
    set v <- verdicts | v.assessment == "probe_false_positive" :: v.observation
  }

  /** Of the items about the finding in a readable answer that was asked about it, the first calls it a
      false positive, says why, and cites something that was found. */
  ghost predicate CalledFalse(rules: Rules, packets: seq<Packet>, replies: seq<Reply>, id: string)
    requires |packets| == |replies|
  {
    exists n: nat, i: nat :: CalledFalseBy(rules, packets, replies, n, i, id)
  }

  ghost predicate CalledFalseBy(rules: Rules, packets: seq<Packet>, replies: seq<Reply>, n: nat, i: nat, id: string)
    requires |packets| == |replies|
  {
    && n < |packets| && replies[n].Answered? && replies[n].items.Some?
    && id in packets[n].observations
    && var items := replies[n].items.value;
      && i < |items| && items[i].observation == id && (forall j :: 0 <= j < i ==> items[j].observation != id)
      && items[i].assessment == "probe_false_positive" && items[i].reasoning != ""
      && exists c :: c in items[i].citations && rules.resolve(c).Some?
  }

  lemma {:induction false} SomethingResolves(rules: Rules, offered: seq<Citation>)
    ensures Resolved(rules, offered) != [] <==> exists c :: c in offered && rules.resolve(c).Some?
  {
    if offered != [] {
      var front, last := offered[..|offered| - 1], offered[|offered| - 1];
      SomethingResolves(rules, front);
      assert offered == front + [last];
    }
  }

  /** Exactly the findings are misleading that the model called so. */
  lemma MisleadingExactly(rules: Rules, packets: seq<Packet>, replies: seq<Reply>, id: string)
    requires |packets| == |replies|
    ensures id in Misleading(KeptOfAll(rules, packets, replies).verdicts) <==> CalledFalse(rules, packets, replies, id)
  {
    var verdicts := KeptOfAll(rules, packets, replies).verdicts;
    if id in Misleading(verdicts) {
      var v :| v in verdicts && v.assessment == "probe_false_positive" && v.observation == id;
      RunVerdictsExactly(rules, packets, replies, v);
      var n: nat, i: nat :| KeptFrom(rules, packets, replies, n, i, v);
      SomethingResolves(rules, replies[n].items.value[i].citations);
      assert CalledFalseBy(rules, packets, replies, n, i, id);
    }
    if n: nat, i: nat :| CalledFalseBy(rules, packets, replies, n, i, id) {
      var v := VerdictFor(rules, packets, replies, n, i, id);
      assert v in verdicts;
    }
  }

  lemma VerdictFor(rules: Rules, packets: seq<Packet>, replies: seq<Reply>, n: nat, i: nat, id: string)
    returns (v: Verdict)
    requires |packets| == |replies| && CalledFalseBy(rules, packets, replies, n, i, id)
    ensures v in KeptOfAll(rules, packets, replies).verdicts
    ensures v.assessment == "probe_false_positive" && v.observation == id
  {
    var item := replies[n].items.value[i];
    SomethingResolves(rules, item.citations);
    v := Verdict(id, item.assessment, if |item.reasoning| <= 1200 then item.reasoning else item.reasoning[..1200],
                 Resolved(rules, item.citations), rules.model,
                 Adjudication.Share(rules, replies[n].usd, |replies[n].items.value|));
    assert KeptFrom(rules, packets, replies, n, i, v);
    RunVerdictsExactly(rules, packets, replies, v);
  }

  /** After an adjudication, exactly the findings that the model called false positives have half their
      confidence, rounded, and the others keep theirs; beside it only the score may change. */
  lemma DemotedExactly(r: Rounding, widest: nat, rules: Rules, packets: seq<Packet>, replies: seq<Reply>,
                       ranked: seq<Finding>, i: nat, i': nat)
    requires |packets| == |replies| && DistinctIds(ranked) && i < |ranked|
    requires var out := Reranked(r, widest, Misleading(KeptOfAll(rules, packets, replies).verdicts), ranked);
             i' < |out| && out[i'].id == ranked[i].id
    ensures var out := Reranked(r, widest, Misleading(KeptOfAll(rules, packets, replies).verdicts), ranked);
            var f, g := ranked[i], out[i'];
            && g == f.(confidence := g.confidence, score := g.score)
            && (CalledFalse(rules, packets, replies, f.id) ==> g.confidence == r.four(f.confidence / 2.0))
            && (!CalledFalse(rules, packets, replies, f.id) ==> g.confidence == f.confidence)
  {
    MisleadingExactly(rules, packets, replies, ranked[i].id);
    RerankedIs(r, widest, Misleading(KeptOfAll(rules, packets, replies).verdicts), ranked, i, i');
  }

  /** An adjudication that calls nothing a false positive leaves the ranking as it was. */
  lemma NothingElseMoves(r: Rounding, widest: nat, rules: Rules, packets: seq<Packet>, replies: seq<Reply>,
                         findings: seq<Finding>)
    requires |packets| == |replies| && DistinctIds(findings)
    requires forall f <- findings :: !CalledFalse(rules, packets, replies, f.id)
    ensures Reranked(r, widest, Misleading(KeptOfAll(rules, packets, replies).verdicts), Rank(r, widest, findings))
         == Rank(r, widest, findings)
  {
    var scored, ranked := ScoredAll(r, widest, findings), Rank(r, widest, findings);
    var misleading := Misleading(KeptOfAll(rules, packets, replies).verdicts);
    SortedIsSorted(scored);
    forall k | 0 <= k < |ranked| ensures ranked[k].id !in misleading {
      assert ranked[k] in multiset(ranked);
      var l :| 0 <= l < |scored| && scored[l] == ranked[k];
      assert findings[l] in findings;
      MisleadingExactly(rules, packets, replies, findings[l].id);
    }
    assert DemotedAll(r, misleading, ranked) == ranked;
    PermutedIds(scored, ranked);
    RankIsDetermined(r, widest, ranked, scored);
    assert ScoredAll(r, widest, scored) == scored;
  }
}
