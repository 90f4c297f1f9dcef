/**
 The naive form of the clustering: every round recomputes the mean of every pair.
 */
module NormClusters {
  import opened Linkage
  import opened Products

  /** What the naive loop computes: its search starts at -1, and a search that finds no
      pair above -1 leaves both indices at -1, which name the last cluster. */
  ghost function Naive(s: Matrix, cs: seq<Cluster>, threshold: real): (out: seq<Cluster>)
    requires Proper(cs)
    ensures Proper(out)
    decreases |cs|
  {
    if |cs| <= 1 then cs
    else if BestScore(s, cs) <= -1.0 then
      if -1.0 < threshold then cs else Naive(s, cs[..|cs| - 1], threshold)
    else if BestScore(s, cs) < threshold then cs
    else Naive(s, Step(s, cs), threshold)
  }

  /** The search of one round: the first best pair above -1, if there is one. */
  ghost predicate Searched(s: Matrix, cs: seq<Cluster>, best: real, l: int, r: int, rows: nat, columns: nat)
    requires Proper(cs)
  {
    && -1.0 <= best
    && (l == -1 ==> r == -1 && best == -1.0)
    && (l != -1 ==> 0 <= l < r < |cs| && Before(l, r, rows, columns) && best == Score(s, cs, l, r) && best > -1.0)
    && forall i: nat, j: nat :: i < j < |cs| && Before(i, j, rows, columns) ==>
         Score(s, cs, i, j) <= best && (l != -1 && Before(i, j, l, r) ==> Score(s, cs, i, j) < best)
  }

  lemma SearchedOneMore(s: Matrix, cs: seq<Cluster>, best: real, l: int, r: int, left: nat, right: nat)
    requires Proper(cs) && left < right < |cs| && Searched(s, cs, best, l, r, left, right)
    ensures Score(s, cs, left, right) > best ==>
              Searched(s, cs, Score(s, cs, left, right), left, right, left, right + 1)
    ensures Score(s, cs, left, right) <= best ==> Searched(s, cs, best, l, r, left, right + 1)
  {
    forall i: nat, j: nat | i < j < |cs| && Before(i, j, left, right + 1)
      ensures Before(i, j, left, right) || (i == left && j == right)
    {
    }
    forall i: nat, j: nat | i < j < |cs| && Before(i, j, left, right)
      ensures Score(s, cs, i, j) <= best && (l != -1 && Before(i, j, l, r) ==> Score(s, cs, i, j) < best)
    {
    }
  }

  method SearchBest(s: Matrix, clusters: seq<Cluster>) returns (best: real, l: int, r: int)
    requires Proper(clusters)
    ensures Searched(s, clusters, best, l, r, |clusters|, 0)
  {
    best, l, r := -1.0, -1, -1;
    for left := 0 to |clusters|
      invariant Searched(s, clusters, best, l, r, left, 0)
    {
      for right := left + 1 to |clusters|
        invariant Searched(s, clusters, best, l, r, left, right)
      {
        var score := Mean(s, clusters[left], clusters[right]);
        SearchedOneMore(s, clusters, best, l, r, left, right);
        if score > best {
          best, l, r := score, left, right;
        }
      }
    }
  }

  method AgglomerateNaive(s: Matrix, threshold: real) returns (out: seq<Cluster>)
    ensures out == SortedEach(Naive(s, Singletons(|s|), threshold))
  {
    var clusters := Singletons(|s|);
    while |clusters| > 1
      invariant Proper(clusters)
      invariant Naive(s, clusters, threshold) == Naive(s, Singletons(|s|), threshold)
      decreases |clusters|
    {
      var best, l, r := SearchBest(s, clusters);
      SearchIsBest(s, clusters, best, l, r);
      if best < threshold {
        break;
      }
      if l == -1 {
        clusters := clusters[..|clusters| - 1];
      } else {
        clusters := Merge(clusters, l, r);
      }
    }
    out := SortedEach(clusters);
  }

  lemma SearchIsBest(s: Matrix, cs: seq<Cluster>, best: real, l: int, r: int)
    requires Proper(cs) && |cs| > 1 && Searched(s, cs, best, l, r, |cs|, 0)
    ensures l == -1 ==> BestScore(s, cs) <= -1.0
    ensures l != -1 ==> Best(s, cs) == (l, r) && BestScore(s, cs) > -1.0
  {
    var (l', r') := Best(s, cs);
    assert Score(s, cs, l', r') <= best;
    if l != -1 {
      assert FirstBest(s, cs, l, r);
      FirstBestUnique(s, cs, l, r, l', r');
    }
  }

  lemma {:induction false} NaiveIsGreedy(s: Matrix, cs: seq<Cluster>, threshold: real)
    requires Proper(cs) && -1.0 < threshold
    ensures Naive(s, cs, threshold) == Greedy(s, cs, threshold)
    decreases |cs|
  {
    if |cs| > 1 && BestScore(s, cs) >= threshold {
      NaiveIsGreedy(s, Step(s, cs), threshold);
    }
  }

  // ------------------------------------------- when the two forms agree --

  /** Every similarity is a cosine from -1 up. */
  ghost predicate FromMinusOne(s: Matrix) {
    forall i: nat, j: nat :: i < |s| && j < |s| ==> -1.0 <= At(s, i, j)
  }

  /** Some similarity above -1 leaves every proper part of the comments. */
  ghost predicate Linked(s: Matrix) {
    forall part: set<nat> :: Splits(s, part) ==> !Separates(s, part)
  }

  ghost predicate Splits(s: Matrix, part: set<nat>) {
    (exists i: nat :: i < |s| && i in part) && (exists j: nat :: j < |s| && j !in part)
  }

  ghost predicate Separates(s: Matrix, part: set<nat>) {
    forall i: nat, j: nat :: i < |s| && j < |s| && i in part && j !in part ==> At(s, i, j) <= -1.0
  }

  /** Every index below `n` is in exactly one cluster, once; no other index is in any. */
  ghost predicate Owned(cs: seq<Cluster>, n: nat) {
    forall i: nat :: Members(cs)[i] == if i < n then 1 else 0
  }

  lemma {:induction false} RowSumLow(s: Matrix, i: nat, b: Cluster)
    requires forall j <- b :: -1.0 <= At(s, i, j)
    ensures -(|b| as real) <= RowSum(s, i, b)
  {
    if b != [] {
      RowSumLow(s, i, b[1..]);
    }
  }

  lemma {:induction false} RowSumAbove(s: Matrix, i: nat, b: Cluster, j: nat)
    requires (forall j <- b :: -1.0 <= At(s, i, j)) && j in b && -1.0 < At(s, i, j)
    ensures -(|b| as real) < RowSum(s, i, b)
  {
    if b[0] == j {
      RowSumLow(s, i, b[1..]);
    } else {
      RowSumAbove(s, i, b[1..], j);
    }
  }

  lemma {:induction false} RowSumHigh(s: Matrix, i: nat, b: Cluster)
    requires forall j <- b :: At(s, i, j) <= -1.0
    ensures RowSum(s, i, b) <= -(|b| as real)
  {
    if b != [] {
      RowSumHigh(s, i, b[1..]);
    }
  }

  lemma OneRowMore(m: nat, c: nat)
    requires m > 0
    ensures m as real * c as real == (m - 1) as real * c as real + c as real
  {
  }

  lemma {:induction false} CrossSumLow(s: Matrix, a: Cluster, b: Cluster)
    requires forall i <- a, j <- b :: -1.0 <= At(s, i, j)
    ensures -(|a| as real * |b| as real) <= CrossSum(s, a, b)
  {
    if a != [] {
      RowSumLow(s, a[0], b);
      CrossSumLow(s, a[1..], b);
      OneRowMore(|a|, |b|);
    }
  }

  lemma StrictlyAbove(row: real, rest: real, columns: real, part: real, whole: real)
    requires whole == part + columns
    requires (-columns < row && -part <= rest) || (-columns <= row && -part < rest)
    ensures -whole < row + rest
  {
  }

  lemma {:induction false} CrossSumAbove(s: Matrix, a: Cluster, b: Cluster, i: nat, j: nat)
    requires forall i <- a, j <- b :: -1.0 <= At(s, i, j)
    requires i in a && j in b && -1.0 < At(s, i, j)
    ensures -(|a| as real * |b| as real) < CrossSum(s, a, b)
  {
    var rest := a[1..];
    OneRowMore(|a|, |b|);
    if a[0] == i {
      RowSumAbove(s, i, b, j);
      CrossSumLow(s, rest, b);
    } else {
      RowSumLow(s, a[0], b);
      CrossSumAbove(s, rest, b, i, j);
    }
    StrictlyAbove(RowSum(s, a[0], b), CrossSum(s, rest, b), |b| as real,
                  |rest| as real * |b| as real, |a| as real * |b| as real);
  }

  lemma {:induction false} CrossSumHigh(s: Matrix, a: Cluster, b: Cluster)
    requires forall i <- a, j <- b :: At(s, i, j) <= -1.0
    ensures CrossSum(s, a, b) <= -(|a| as real * |b| as real)
  {
    if a != [] {
      RowSumHigh(s, a[0], b);
      CrossSumHigh(s, a[1..], b);
      OneRowMore(|a|, |b|);
    }
  }

  lemma AgainstMinusOne(x: real, d: real)
    requires 0.0 < d
    ensures -1.0 < x / d <==> -d < x
  {
    QuotientExceeds(x, d, -1.0);
  }

  lemma QuotientAgainstMinusOne(x: real, m: nat, c: nat)
    requires m > 0 && c > 0
    ensures -(m as real * c as real) < x ==> -1.0 < Quotient(x, m, c)
    ensures x <= -(m as real * c as real) ==> Quotient(x, m, c) <= -1.0
  {
    var d := m as real * c as real;
    ProductPositive(m as real, c as real);
    ProductPositive(m as real, c as real);
    AgainstMinusOne(x, d);
    assert Quotient(x, m, c) == x / d;
  }

  lemma {:induction false} MembersCount(cs: seq<Cluster>, k: nat)
    requires k < |cs|
    ensures multiset(cs[k]) <= Members(cs)
    ensures forall k' :: 0 <= k' < |cs| && k' != k ==> multiset(cs[k]) + multiset(cs[k']) <= Members(cs)
  {
    if k == 0 {
      forall k' | 0 < k' < |cs| ensures multiset(cs[k']) <= Members(cs[1..]) {
        MembersCount(cs[1..], k' - 1);
      }
    } else {
      MembersCount(cs[1..], k - 1);
      forall k' | 0 <= k' < |cs| && k' != k ensures multiset(cs[k]) + multiset(cs[k']) <= Members(cs) {
        if k' > 0 {
          assert cs[k'] == cs[1..][k' - 1];
        }
      }
    }
  }

  lemma {:induction false} MembersFind(cs: seq<Cluster>, i: nat) returns (k: nat)
    requires i in Members(cs)
    ensures k < |cs| && i in cs[k]
  {
    if i in multiset(cs[0]) {
      k := 0;
    } else {
      k := MembersFind(cs[1..], i);
      k := k + 1;
    }
  }

  lemma {:induction false} SingletonsOwned(n: nat)
    ensures Owned(Singletons(n), n)
  {
    if n > 0 {
      SingletonsOwned(n - 1);
      assert Singletons(n) == Singletons(n - 1) + [[n - 1]];
      MembersAppend(Singletons(n - 1), [[n - 1]]);
      MembersOfOne([n - 1]);
    }
  }

  lemma OwnedBelow(cs: seq<Cluster>, n: nat, k: nat)
    requires Owned(cs, n) && k < |cs|
    ensures forall i <- cs[k] :: i < n
  {
    MembersCount(cs, k);
    forall i <- cs[k] ensures i < n {
      assert i in multiset(cs[k]) && i in Members(cs);
    }
  }

  lemma OwnedOnce(cs: seq<Cluster>, n: nat, k: nat, k': nat, i: nat)
    requires Owned(cs, n) && k < |cs| && k' < |cs| && k != k' && i in cs[k]
    ensures i !in cs[k']
  {
    MembersCount(cs, k);
    assert multiset(cs[k])[i] >= 1 && Members(cs)[i] <= 1;
    assert multiset(cs[k])[i] + multiset(cs[k'])[i] == (multiset(cs[k]) + multiset(cs[k']))[i] <= Members(cs)[i];
  }

  /** While the comments are linked, every round of the naive loop finds a pair above -1. */
  lemma LinkedHasAPair(s: Matrix, cs: seq<Cluster>)
    requires FromMinusOne(s) && Linked(s) && Proper(cs) && Owned(cs, |s|) && |cs| > 1
    ensures BestScore(s, cs) > -1.0
  {
    var part := set i | i in cs[0];
    OwnedBelow(cs, |s|, 0);
    OwnedBelow(cs, |s|, 1);
    var x, y := cs[0][0], cs[1][0];
    assert x in cs[0] && y in cs[1];
    OwnedOnce(cs, |s|, 1, 0, y);
    assert x in part && y !in part;
    assert Splits(s, part);
    var i: nat, j: nat :| i < |s| && j < |s| && i in part && j !in part && !(At(s, i, j) <= -1.0);
    assert Members(cs)[j] == 1;
    var k := MembersFind(cs, j);
    OwnedBelow(cs, |s|, k);
    MeanAboveMinusOne(s, cs[0], cs[k], i, j);
    assert Score(s, cs, 0, k) <= BestScore(s, cs);
  }

  lemma MeanAboveMinusOne(s: Matrix, a: Cluster, b: Cluster, i: nat, j: nat)
    requires FromMinusOne(s) && i in a && j in b && At(s, i, j) > -1.0
    requires (forall k <- a :: k < |s|) && (forall k <- b :: k < |s|)
    ensures Mean(s, a, b) > -1.0
  {
    CrossSumAbove(s, a, b, i, j);
    QuotientAgainstMinusOne(CrossSum(s, a, b), |a|, |b|);
  }

  lemma {:induction false} LinkedNaiveIsGreedy(s: Matrix, cs: seq<Cluster>, threshold: real)
    requires FromMinusOne(s) && Symmetric(s) && Linked(s) && Proper(cs) && Owned(cs, |s|)
    ensures Naive(s, cs, threshold) == Greedy(s, cs, threshold)
    decreases |cs|
  {
    if |cs| > 1 {
      LinkedHasAPair(s, cs);
      if BestScore(s, cs) >= threshold {
        MergeKeepsMembers(cs, Best(s, cs).0, Best(s, cs).1);
        LinkedNaiveIsGreedy(s, Step(s, cs), threshold);
      }
    }
  }

  /** No cluster reaches across the boundary of `part`. */
  ghost predicate Within(cs: seq<Cluster>, part: set<nat>) {
    forall k :: 0 <= k < |cs| ==> (forall i <- cs[k] :: i in part) || (forall i <- cs[k] :: i !in part)
  }

  /** The naive loop never gains a comment. */
  lemma {:induction false} NaiveNeverGains(s: Matrix, cs: seq<Cluster>, threshold: real)
    requires Proper(cs)
    ensures |Members(Naive(s, cs, threshold))| <= |Members(cs)|
    decreases |cs|
  {
    if |cs| > 1 {
      if BestScore(s, cs) <= -1.0 {
        NaiveNeverGains(s, cs[..|cs| - 1], threshold);
        LastCluster(cs);
      } else if BestScore(s, cs) >= threshold {
        MergeKeepsMembers(cs, Best(s, cs).0, Best(s, cs).1);
        NaiveNeverGains(s, Step(s, cs), threshold);
      }
    }
  }

  lemma LastCluster(cs: seq<Cluster>)
    requires Proper(cs) && cs != []
    ensures |Members(cs[..|cs| - 1])| < |Members(cs)|
  {
    var last := cs[|cs| - 1];
    assert cs == cs[..|cs| - 1] + [last];
    MembersAppend(cs[..|cs| - 1], [last]);
    MembersOfOne(last);
  }

  /** Across a boundary that separates, no mean is above -1. */
  lemma SeparatedMean(s: Matrix, part: set<nat>, a: Cluster, b: Cluster)
    requires Symmetric(s) && Separates(s, part) && a != [] && b != []
    requires (forall i <- a :: i < |s|) && (forall i <- b :: i < |s|)
    requires (forall i <- a :: i in part) && (forall i <- b :: i !in part)
    ensures Mean(s, a, b) <= -1.0 && Mean(s, b, a) <= -1.0
  {
    CrossSumHigh(s, a, b);
    QuotientAgainstMinusOne(CrossSum(s, a, b), |a|, |b|);
    MeanSymmetric(s, a, b);
  }

  /** Where a boundary separates, the naive loop with a threshold of at most -1 loses comments. */
  lemma {:induction false} SeparatedNaiveLoses(s: Matrix, cs: seq<Cluster>, threshold: real, part: set<nat>)
    requires Symmetric(s) && Proper(cs) && Owned(cs, |s|) && threshold <= -1.0
    requires Splits(s, part) && Separates(s, part) && Within(cs, part)
    ensures |Members(Naive(s, cs, threshold))| < |Members(cs)|
    decreases |cs|
  {
    BothSides(s, cs, part);
    if BestScore(s, cs) <= -1.0 {
      NaiveNeverGains(s, cs[..|cs| - 1], threshold);
      LastCluster(cs);
    } else {
      var (l, r) := Best(s, cs);
      OwnedBelow(cs, |s|, l);
      OwnedBelow(cs, |s|, r);
      if (forall i <- cs[l] :: i in part) && (forall i <- cs[r] :: i !in part) {
        SeparatedMean(s, part, cs[l], cs[r]);
      } else if (forall i <- cs[l] :: i !in part) && (forall i <- cs[r] :: i in part) {
        SeparatedMean(s, part, cs[r], cs[l]);
      }
      MergeKeepsMembers(cs, l, r);
      MergeStaysWithin(cs, part, l, r);
      SeparatedNaiveLoses(s, Step(s, cs), threshold, part);
    }
  }

  lemma MergeStaysWithin(cs: seq<Cluster>, part: set<nat>, l: nat, r: nat)
    requires l < r < |cs| && Within(cs, part)
    requires (forall i <- cs[l] + cs[r] :: i in part) || (forall i <- cs[l] + cs[r] :: i !in part)
    ensures Within(Merge(cs, l, r), part)
  {
    var ms := Merge(cs, l, r);
    forall k | 0 <= k < |ms| ensures (forall i <- ms[k] :: i in part) || (forall i <- ms[k] :: i !in part) {
      if k != l {
        assert ms[k] == cs[if k < r then k else k + 1];
      }
    }
  }

  lemma BothSides(s: Matrix, cs: seq<Cluster>, part: set<nat>)
    requires Owned(cs, |s|) && Splits(s, part) && Within(cs, part)
    ensures |cs| > 1
  {
    var i: nat :| i < |s| && i in part;
    var j: nat :| j < |s| && j !in part;
    assert Members(cs)[i] == 1 && Members(cs)[j] == 1;
    var k := MembersFind(cs, i);
    var k' := MembersFind(cs, j);
  }

  /** The fast and the naive form return the same clusters in the same order for every
      threshold above -1, ties included, and for a lower threshold exactly when the
      comments are linked. */
  lemma FormsAgreeExactlyWhen(s: Matrix, threshold: real)
    requires Symmetric(s)
    ensures threshold > -1.0 ==>
              SortedEach(Naive(s, Singletons(|s|), threshold)) == SortedEach(Greedy(s, Singletons(|s|), threshold))
    ensures FromMinusOne(s) ==>
              (SortedEach(Naive(s, Singletons(|s|), threshold)) == SortedEach(Greedy(s, Singletons(|s|), threshold))
               <==> threshold > -1.0 || Linked(s))
  {
    var cs := Singletons(|s|);
    SingletonsOwned(|s|);
    if threshold > -1.0 {
      NaiveIsGreedy(s, cs, threshold);
    } else if FromMinusOne(s) {
      if Linked(s) {
        LinkedNaiveIsGreedy(s, cs, threshold);
      } else {
        var part: set<nat> :| Splits(s, part) && Separates(s, part);
        SeparatedNaiveLoses(s, cs, threshold, part);
        GreedyPartitionsAndStops(s, cs, threshold);
        SortingKeepsMembers(Naive(s, cs, threshold));
        SortingKeepsMembers(Greedy(s, cs, threshold));
      }
    }
  }

  /** Two opposite comments under a threshold of -1: the fast form puts them in one cluster,
      the naive one loses the second. */
  lemma OppositeCommentsDisagree(s: Matrix)
    requires s == [[1.0, -1.0], [-1.0, 1.0]]
    ensures Symmetric(s) && FromMinusOne(s) && !Linked(s)
    ensures SortedEach(Greedy(s, Singletons(2), -1.0)) == [[0, 1]]
    ensures SortedEach(Naive(s, Singletons(2), -1.0)) == [[0]]
  {
    var first: set<nat> := {0};
    assert 0 in first && 1 !in first;
    assert Splits(s, first) && Separates(s, first);
    var cs := Singletons(2);
    assert cs == [[0], [1]];
    MeanOfOpposites(s);
    var (l, r) := Best(s, cs);
    assert l == 0 && r == 1 && BestScore(s, cs) == -1.0;
    assert Merge([[0], [1]], 0, 1) == [[0, 1]] by {
      assert [0] + [1] == [0, 1];
    }
    assert cs[..1] == [[0]];
    SortedOfPair();
  }

  lemma MeanOfOpposites(s: Matrix)
    requires s == [[1.0, -1.0], [-1.0, 1.0]]
    ensures Mean(s, [0], [1]) == -1.0
  {
    assert [0][1..] == [] && [1][1..] == [];
    assert RowSum(s, 0, [1]) == At(s, 0, 1) == -1.0;
    assert CrossSum(s, [0], [1]) == -1.0;
  }

  lemma SortedOfPair()
    ensures SortedEach([[0, 1]]) == [[0, 1]] && SortedEach([[0]]) == [[0]]
  {
    assert [0, 1][1..] == [1] && [0][1..] == [] && [1][1..] == [];
    assert Sorted([1]) == [1] && Sorted([0]) == [0] && Sorted([0, 1]) == [0, 1];
  }
}
