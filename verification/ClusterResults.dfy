/**
 What the threshold means for the groups that come out.
 */
module ClusterResults {
  import opened Linkage

  /** Two non-empty parts whose mean similarity reaches the threshold. */
  ghost predicate JoinedAbove(s: Matrix, c: Cluster, a: Cluster, b: Cluster, threshold: real) {
    a != [] && b != [] && c == a + b && Mean(s, a, b) >= threshold
  }

  /** Every cluster of the result was there before, or is a merge of two parts that average at
      least the threshold. */
  lemma {:induction false} MergedOnlyAbove(s: Matrix, cs: seq<Cluster>, threshold: real, k: nat)
    requires Proper(cs) && k < |Greedy(s, cs, threshold)|
    ensures var c := Greedy(s, cs, threshold)[k];
            c in cs || exists a, b :: JoinedAbove(s, c, a, b, threshold)
    decreases |cs|
  {
    if |cs| > 1 && BestScore(s, cs) >= threshold {
      var next := Step(s, cs);
      MergedOnlyAbove(s, next, threshold, k);
      var c := Greedy(s, cs, threshold)[k];
      if c in next {
        StepAddsOne(s, cs, c);
        var (l, r) := Best(s, cs);
        assert c !in cs ==> JoinedAbove(s, c, cs[l], cs[r], threshold);
      }
    }
  }

  lemma StepAddsOne(s: Matrix, cs: seq<Cluster>, c: Cluster)
    requires Proper(cs) && |cs| > 1 && c in Step(s, cs)
    ensures c in cs || c == cs[Best(s, cs).0] + cs[Best(s, cs).1]
  {
    var (l, r) := Best(s, cs);
    var k :| 0 <= k < |Step(s, cs)| && Step(s, cs)[k] == c;
    assert k != l ==> c == cs[if k < r then k else k + 1];
  }

  /** A group of the sorted result is a single comment, or splits into two parts whose mean
      similarity reaches the threshold. */
  lemma GroupsAreJustified(s: Matrix, threshold: real, k: nat)
    requires k < |SortedEach(Greedy(s, Singletons(|s|), threshold))|
    ensures var group := SortedEach(Greedy(s, Singletons(|s|), threshold))[k];
            || (exists i: nat :: i < |s| && group == [i])
            || (exists a, b :: a != [] && b != [] && multiset(group) == multiset(a) + multiset(b)
                               && Mean(s, a, b) >= threshold)
  {
    var c := Greedy(s, Singletons(|s|), threshold)[k];
    SortedSorts(c);
    MergedOnlyAbove(s, Singletons(|s|), threshold, k);
    if c in Singletons(|s|) {
      var i :| 0 <= i < |s| && Singletons(|s|)[i] == c;
      SortedSingleton(i);
    } else {
      var a, b :| JoinedAbove(s, c, a, b, threshold);
      assert multiset(a + b) == multiset(a) + multiset(b);
    }
  }

  lemma SortedSingleton(i: nat)
    ensures Sorted([i]) == [i]
  {
    SortedSorts([i]);
    assert |multiset(Sorted([i]))| == 1;
    assert Sorted([i])[0] in multiset(Sorted([i]));
  }

  lemma ScoreOfSingletons(s: Matrix, i: nat, j: nat)
    requires i < |s| && j < |s|
    ensures Score(s, Singletons(|s|), i, j) == At(s, i, j)
  {
    assert [i][1..] == [] && [j][1..] == [];
    assert CrossSum(s, [i], [j]) == RowSum(s, i, [j]) + CrossSum(s, [], [j]);
    assert RowSum(s, i, [j]) == At(s, i, j) + RowSum(s, i, []);
  }

  /** Comments that are all further apart than the threshold stay alone. */
  lemma FarApartStaysApart(s: Matrix, threshold: real)
    requires forall i: nat, j: nat :: i < j < |s| ==> At(s, i, j) < threshold
    ensures Greedy(s, Singletons(|s|), threshold) == Singletons(|s|)
    ensures SortedEach(Greedy(s, Singletons(|s|), threshold)) == Singletons(|s|)
  {
    if |s| > 1 {
      var (l, r) := Best(s, Singletons(|s|));
      ScoreOfSingletons(s, l, r);
    }
    forall i: nat | i < |s| ensures Sorted([i]) == [i] { SortedSingleton(i); }
  }

  /** And of two comments that stay alone, the similarity is below the threshold. */
  lemma AloneAreFarApart(s: Matrix, threshold: real, i: nat, j: nat)
    requires Symmetric(s) && i < j < |s|
    requires var out := Greedy(s, Singletons(|s|), threshold); [i] in out && [j] in out
    ensures At(s, i, j) < threshold
  {
    var out := Greedy(s, Singletons(|s|), threshold);
    GreedyPartitionsAndStops(s, Singletons(|s|), threshold);
    var k: nat :| k < |out| && out[k] == [i];
    var l: nat :| l < |out| && out[l] == [j];
    BothAlone(s, out, threshold, i, j, k, l);
  }

  lemma BothAlone(s: Matrix, out: seq<Cluster>, threshold: real, i: nat, j: nat, k: nat, l: nat)
    requires Symmetric(s) && i < j < |s| && Proper(out) && k < |out| && l < |out| && out[k] == [i] && out[l] == [j]
    requires forall x: nat, y: nat :: x < y < |out| ==> Score(s, out, x, y) < threshold
    ensures At(s, i, j) < threshold
  {
    assert out[k][0] != out[l][0];
    ScoreOfSingletons(s, i, j);
    MeanSymmetric(s, [i], [j]);
    assert Singletons(|s|)[i] == [i] && Singletons(|s|)[j] == [j];
    if k < l {
      assert Score(s, out, k, l) == At(s, i, j);
    } else {
      assert Score(s, out, l, k) == At(s, i, j);
    }
  }

  /** One merge for every cluster that is gone, each at a similarity that reaches the threshold. */
  lemma {:induction false} MergesAreCounted(s: Matrix, cs: seq<Cluster>, threshold: real)
    requires Proper(cs)
    ensures |MergeScores(s, cs, threshold)| == |cs| - |Greedy(s, cs, threshold)|
    ensures forall k :: 0 <= k < |MergeScores(s, cs, threshold)| ==> MergeScores(s, cs, threshold)[k] >= threshold
    decreases |cs|
  {
    if |cs| > 1 && BestScore(s, cs) >= threshold {
      MergesAreCounted(s, Step(s, cs), threshold);
    }
  }
}
