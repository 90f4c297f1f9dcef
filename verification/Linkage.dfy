/**
 Average-linkage clustering as a function: `Greedy` merges the first best pair of a
 list of clusters until no pair reaches the threshold. The naive loop (`NormClusters`)
 and the Lance-Williams loop (`MinedClusters`) are both proved against it. A
 similarity matrix has exact real entries.
 */
module Linkage {
  import opened Products
  import Sorting

  type Matrix = seq<seq<real>>

  type Cluster = seq<nat>

  ghost predicate Symmetric(s: Matrix) {
    && (forall i :: 0 <= i < |s| ==> |s[i]| == |s|)
    && (forall i, j :: 0 <= i < |s| && 0 <= j < |s| ==> s[i][j] == s[j][i])
  }

  // ----------------------------------------------------------------- means --

  function At(s: Matrix, i: nat, j: nat): real {
    if i < |s| && j < |s[i]| then s[i][j] else 0.0
  }

  function RowSum(s: Matrix, i: nat, b: Cluster): real {
    if b == [] then 0.0 else At(s, i, b[0]) + RowSum(s, i, b[1..])
  }

  function CrossSum(s: Matrix, a: Cluster, b: Cluster): real {
    if a == [] then 0.0 else RowSum(s, a[0], b) + CrossSum(s, a[1..], b)
  }

  function Quotient(x: real, m: nat, c: nat): real
    requires m > 0 && c > 0
  {
    x / (m as real * c as real)
  }

  /** The mean pairwise similarity of two clusters. */
  function Mean(s: Matrix, a: Cluster, b: Cluster): real
    requires a != [] && b != []
  {
    Quotient(CrossSum(s, a, b), |a|, |b|)
  }

  lemma {:induction false} CrossSumAppend(s: Matrix, a: Cluster, a': Cluster, b: Cluster)
    ensures CrossSum(s, a + a', b) == CrossSum(s, a, b) + CrossSum(s, a', b)
  {
    if a == [] {
      assert a + a' == a';
    } else {
      CrossSumAppend(s, a[1..], a', b);
      assert (a + a')[1..] == a[1..] + a';
    }
  }

  /** A cross sum can be taken column by column. */
  lemma {:induction false} CrossSumByColumn(s: Matrix, a: Cluster, b: Cluster)
    requires Symmetric(s)
    requires b != []
    ensures CrossSum(s, a, b) == RowSum(s, b[0], a) + CrossSum(s, a, b[1..])
  {
    if a != [] {
      CrossSumByColumn(s, a[1..], b);
    }
  }

  lemma {:induction false} CrossSumOfNothing(s: Matrix, a: Cluster)
    ensures CrossSum(s, a, []) == 0.0
  {
    if a != [] {
      CrossSumOfNothing(s, a[1..]);
    }
  }

  lemma {:induction false} CrossSumSymmetric(s: Matrix, a: Cluster, b: Cluster)
    requires Symmetric(s)
    ensures CrossSum(s, a, b) == CrossSum(s, b, a)
  {
    if b == [] {
      CrossSumOfNothing(s, a);
    } else {
      CrossSumByColumn(s, a, b);
      CrossSumSymmetric(s, a, b[1..]);
    }
  }

  lemma MeanSymmetric(s: Matrix, a: Cluster, b: Cluster)
    requires Symmetric(s) && a != [] && b != []
    ensures Mean(s, a, b) == Mean(s, b, a)
  {
    CrossSumSymmetric(s, a, b);
    assert |a| as real * |b| as real == |b| as real * |a| as real;
  }

  /** (x / (m c)) m == x / c */
  lemma CancelFactor(x: real, m: real, c: real)
    requires m > 0.0 && c > 0.0
    ensures m * c > 0.0 && m * (x / (m * c)) == x / c
  {
    var q := x / (m * c);
    assert q * (m * c) == x;
    assert (m * q) * c == x;
  }

  lemma SplitQuotient(x: real, y: real, c: real)
    requires c > 0.0
    ensures x / c + y / c == (x + y) / c
  {
    assert (x / c + y / c) * c == x + y;
  }

  lemma NestedQuotient(x: real, m: real, c: real)
    requires m > 0.0 && c > 0.0
    ensures m * c > 0.0 && x / (m * c) == (x / c) / m
  {
    CancelFactor(x, m, c);
    var q := x / (m * c);
    assert q * m == x / c;
  }

  lemma WeightedQuotient(x: real, y: real, m: real, m': real, c: real)
    requires m > 0.0 && m' > 0.0 && c > 0.0
    ensures m * c > 0.0 && m' * c > 0.0 && (m + m') * c > 0.0
    ensures (x + y) / ((m + m') * c) == (m * (x / (m * c)) + m' * (y / (m' * c))) / (m + m')
  {
    CancelFactor(x, m, c);
    CancelFactor(y, m', c);
    SplitQuotient(x, y, c);
    NestedQuotient(x + y, m + m', c);
  }

  function Weighted(m: nat, x: real, m': nat, y: real): real
    requires m > 0 && m' > 0
  {
    (m as real * x + m' as real * y) / (m as real + m' as real)
  }

  lemma QuotientOfUnion(x: real, y: real, m: nat, m': nat, c: nat)
    requires m > 0 && m' > 0 && c > 0
    ensures Quotient(x + y, m + m', c) == Weighted(m, Quotient(x, m, c), m', Quotient(y, m', c))
  {
    assert (m + m') as real == m as real + m' as real;
    WeightedQuotient(x, y, m as real, m' as real, c as real);
  }

  /** The Lance-Williams update of average linkage is exact. */
  lemma MeanOfUnion(s: Matrix, a: Cluster, a': Cluster, b: Cluster)
    requires a != [] && a' != [] && b != []
    ensures Mean(s, a + a', b) == Weighted(|a|, Mean(s, a, b), |a'|, Mean(s, a', b))
  {
    CrossSumAppend(s, a, a', b);
    QuotientOfUnion(CrossSum(s, a, b), CrossSum(s, a', b), |a|, |a'|, |b|);
  }

  /** A weighted mean lies between what it averages. */
  lemma WeightedMeanBound(m: nat, m': nat, x: real, y: real, bound: real)
    requires m > 0 && m' > 0 && x <= bound && y <= bound
    ensures Weighted(m, x, m', y) <= bound
  {
    RealMeanBound(m as real, m' as real, x, y, bound);
  }

  lemma RealMeanBound(m: real, m': real, x: real, y: real, bound: real)
    requires m > 0.0 && m' > 0.0 && x <= bound && y <= bound
    ensures (m * x + m' * y) / (m + m') <= bound
  {
    Scale(x, bound, m);
    Scale(y, bound, m');
    Distribute(m, m', bound);
    DivideBound(m * x + m' * y, m + m', bound);
  }

  // ------------------------------------------------- the greedy clustering --

  ghost predicate Proper(cs: seq<Cluster>) {
    forall k :: 0 <= k < |cs| ==> cs[k] != []
  }

  function Score(s: Matrix, cs: seq<Cluster>, i: nat, j: nat): real
    requires Proper(cs) && i < |cs| && j < |cs|
  {
    Mean(s, cs[i], cs[j])
  }

  predicate Before(i: nat, j: nat, l: nat, r: nat) {
    i < l || (i == l && j < r)
  }

  /** (l, r) is the first pair, row by row, of the highest score. */
  ghost predicate FirstBest(s: Matrix, cs: seq<Cluster>, l: nat, r: nat)
    requires Proper(cs)
  {
    && l < r < |cs|
    && forall i: nat, j: nat :: i < j < |cs| ==>
         Score(s, cs, i, j) <= Score(s, cs, l, r)
         && (Before(i, j, l, r) ==> Score(s, cs, i, j) < Score(s, cs, l, r))
  }

  /** The later cluster joins the earlier one and leaves the list. */
  function Merge(cs: seq<Cluster>, l: nat, r: nat): (ms: seq<Cluster>)
    requires l < r < |cs|
    ensures |ms| == |cs| - 1
  {
    var ms := cs[l := cs[l] + cs[r]];
    ms[..r] + ms[r + 1..]
  }

  lemma {:induction false} BestInRow(s: Matrix, cs: seq<Cluster>, i: nat, n: nat) returns (r: nat)
    requires Proper(cs) && i < i + 1 < n <= |cs|
    ensures i < r < n
    ensures forall j :: i < j < n ==> Score(s, cs, i, j) <= Score(s, cs, i, r)
    ensures forall j :: i < j < r ==> Score(s, cs, i, j) < Score(s, cs, i, r)
    decreases n
  {
    if n == i + 2 {
      r := i + 1;
    } else {
      r := BestInRow(s, cs, i, n - 1);
      if Score(s, cs, i, r) < Score(s, cs, i, n - 1) {
        r := n - 1;
      }
    }
  }

  lemma {:induction false} BestInRows(s: Matrix, cs: seq<Cluster>, n: nat) returns (l: nat, r: nat)
    requires Proper(cs) && 0 < n < |cs|
    ensures l < n && l < r < |cs|
    ensures forall i: nat, j: nat :: i < n && i < j < |cs| ==>
              Score(s, cs, i, j) <= Score(s, cs, l, r)
              && (Before(i, j, l, r) ==> Score(s, cs, i, j) < Score(s, cs, l, r))
    decreases n
  {
    var r' := BestInRow(s, cs, n - 1, |cs|);
    if n == 1 {
      l, r := 0, r';
    } else {
      l, r := BestInRows(s, cs, n - 1);
      if Score(s, cs, l, r) < Score(s, cs, n - 1, r') {
        l, r := n - 1, r';
      }
    }
  }

  lemma FirstBestExists(s: Matrix, cs: seq<Cluster>)
    requires Proper(cs) && |cs| > 1
    ensures exists l: nat, r: nat :: FirstBest(s, cs, l, r)
  {
    var l, r := BestInRows(s, cs, |cs| - 1);
    assert FirstBest(s, cs, l, r);
  }

  lemma FirstBestUnique(s: Matrix, cs: seq<Cluster>, l: nat, r: nat, l': nat, r': nat)
    requires Proper(cs) && FirstBest(s, cs, l, r) && FirstBest(s, cs, l', r')
    ensures l == l' && r == r'
  {
    assert Score(s, cs, l, r) <= Score(s, cs, l', r') && Score(s, cs, l', r') <= Score(s, cs, l, r);
    assert !Before(l, r, l', r') && !Before(l', r', l, r);
  }

  ghost function Best(s: Matrix, cs: seq<Cluster>): (p: (nat, nat))
    requires Proper(cs) && |cs| > 1
    ensures FirstBest(s, cs, p.0, p.1)
  {
    FirstBestExists(s, cs);
    var l: nat, r: nat :| FirstBest(s, cs, l, r);
    (l, r)
  }

  ghost function BestScore(s: Matrix, cs: seq<Cluster>): real
    requires Proper(cs) && |cs| > 1
  {
    Score(s, cs, Best(s, cs).0, Best(s, cs).1)
  }

  ghost function Step(s: Matrix, cs: seq<Cluster>): (next: seq<Cluster>)
    requires Proper(cs) && |cs| > 1
    ensures Proper(next) && |next| == |cs| - 1
  {
    Merge(cs, Best(s, cs).0, Best(s, cs).1)
  }

  /** Merge the first best pair while it reaches the threshold. */
  ghost function Greedy(s: Matrix, cs: seq<Cluster>, threshold: real): (out: seq<Cluster>)
    requires Proper(cs)
    ensures Proper(out)
    decreases |cs|
  {
    if |cs| <= 1 || BestScore(s, cs) < threshold then cs else Greedy(s, Step(s, cs), threshold)
  }

  function Singletons(n: nat): (cs: seq<Cluster>)
    ensures |cs| == n && forall i :: 0 <= i < n ==> cs[i] == [i]
  {
    seq(n, i requires 0 <= i => [i])
  }

  // ------------------------------------------------------ what greedy keeps --

  /** Every index in a list of clusters, with its multiplicity. */
  function Members(cs: seq<Cluster>): multiset<nat> {
    if cs == [] then multiset{} else multiset(cs[0]) + Members(cs[1..])
  }

  lemma MembersUnfold(cs: seq<Cluster>, c: Cluster, rest: seq<Cluster>)
    requires cs == [c] + rest
    ensures Members(cs) == multiset(c) + Members(rest)
  {
    assert cs[0] == c && cs[1..] == rest;
  }

  lemma Associates(all: multiset<nat>, a: multiset<nat>, bc: multiset<nat>, b: multiset<nat>, c: multiset<nat>)
    requires all == a + bc && bc == b + c
    ensures all == a + b + c
  {
  }

  lemma {:induction false} MembersAppend(a: seq<Cluster>, b: seq<Cluster>)
    ensures Members(a + b) == Members(a) + Members(b)
    decreases |a|
  {
    if a == [] {
      assert a + b == b;
    } else {
      var c, rest := a[0], a[1..];
      MembersAppend(rest, b);
      MembersUnfold(a, c, rest);
      MembersUnfold(a + b, c, rest + b);
      Associates(Members(a + b), multiset(c), Members(rest + b), Members(rest), Members(b));
    }
  }

  lemma MembersOfOne(c: Cluster)
    ensures Members([c]) == multiset(c)
  {
    assert [c][1..] == [];
  }

  lemma MembersAround(a: seq<Cluster>, c: Cluster, b: seq<Cluster>)
    ensures Members(a + [c] + b) == Members(a) + multiset(c) + Members(b)
  {
    MembersAppend(a + [c], b);
    MembersAppend(a, [c]);
    MembersOfOne(c);
  }

  lemma MergeParts(cs: seq<Cluster>, l: nat, r: nat)
    requires l < r < |cs|
    ensures cs == cs[..l] + [cs[l]] + (cs[l + 1..r] + [cs[r]] + cs[r + 1..])
    ensures Merge(cs, l, r) == cs[..l] + [cs[l] + cs[r]] + (cs[l + 1..r] + cs[r + 1..])
  {
  }

  lemma MembersMoved(a: seq<Cluster>, x: Cluster, b: seq<Cluster>, y: Cluster, c: seq<Cluster>)
    ensures Members(a + [x + y] + (b + c)) == Members(a + [x] + (b + [y] + c))
  {
    MembersAround(a, x, b + [y] + c);
    MembersAround(b, y, c);
    MembersAround(a, x + y, b + c);
    MembersAppend(b, c);
    Regroup(Members(a), multiset(x), Members(b), multiset(y), Members(c));
  }

  lemma MergeKeepsMembers(cs: seq<Cluster>, l: nat, r: nat)
    requires l < r < |cs|
    ensures Members(Merge(cs, l, r)) == Members(cs)
  {
    MergeParts(cs, l, r);
    MembersMoved(cs[..l], cs[l], cs[l + 1..r], cs[r], cs[r + 1..]);
  }

  lemma Regroup<T>(a: multiset<T>, x: multiset<T>, b: multiset<T>, y: multiset<T>, c: multiset<T>)
    ensures a + x + (b + y + c) == a + (x + y) + (b + c)
  {
  }

  /** Clustering keeps every index exactly as often as it was there, and stops only when
      every two clusters that remain average below the threshold. */
  lemma {:induction false} GreedyPartitionsAndStops(s: Matrix, cs: seq<Cluster>, threshold: real)
    requires Proper(cs)
    ensures var out := Greedy(s, cs, threshold);
            && Members(out) == Members(cs)
            && forall i: nat, j: nat :: i < j < |out| ==> Score(s, out, i, j) < threshold
    decreases |cs|
  {
    if |cs| > 1 && BestScore(s, cs) >= threshold {
      MergeKeepsMembers(cs, Best(s, cs).0, Best(s, cs).1);
      GreedyPartitionsAndStops(s, Step(s, cs), threshold);
    }
  }

  /** The similarities at which clusters are merged, in order. */
  ghost function MergeScores(s: Matrix, cs: seq<Cluster>, threshold: real): seq<real>
    requires Proper(cs)
    decreases |cs|
  {
    if |cs| <= 1 || BestScore(s, cs) < threshold then []
    else [BestScore(s, cs)] + MergeScores(s, Step(s, cs), threshold)
  }

  /** A pair of the merged list averages at most the best score of the list before. */
  lemma MergedScoreBound(s: Matrix, cs: seq<Cluster>, l: nat, r: nat, i: nat, j: nat)
    requires Symmetric(s) && Proper(cs) && FirstBest(s, cs, l, r)
    requires i < j < |cs| - 1
    requires Proper(Merge(cs, l, r))
    ensures Score(s, Merge(cs, l, r), i, j) <= Score(s, cs, l, r)
  {
    var ms := Merge(cs, l, r);
    var i', j' := if i < r then i else i + 1, if j < r then j else j + 1;
    if i == l {
      MergedPairBound(s, cs, l, r, j');
    } else if j == l {
      MergedPairBound(s, cs, l, r, i');
      MeanSymmetric(s, ms[i], ms[j]);
    } else {
      assert ms[i] == cs[i'] && ms[j] == cs[j'];
      assert Score(s, cs, i', j') <= Score(s, cs, l, r);
    }
  }

  lemma MergedPairBound(s: Matrix, cs: seq<Cluster>, l: nat, r: nat, k: nat)
    requires Symmetric(s) && Proper(cs) && FirstBest(s, cs, l, r)
    requires k < |cs| && k != l && k != r
    ensures Mean(s, cs[l] + cs[r], cs[k]) <= Score(s, cs, l, r)
  {
    MeanSymmetric(s, cs[l], cs[k]);
    MeanSymmetric(s, cs[r], cs[k]);
    assert Score(s, cs, l, k) <= Score(s, cs, l, r) by {
      assert if l < k then Score(s, cs, l, k) <= Score(s, cs, l, r) else Score(s, cs, k, l) <= Score(s, cs, l, r);
    }
    assert Score(s, cs, r, k) <= Score(s, cs, l, r) by {
      assert if r < k then Score(s, cs, r, k) <= Score(s, cs, l, r) else Score(s, cs, k, r) <= Score(s, cs, l, r);
    }
    MeanOfUnion(s, cs[l], cs[r], cs[k]);
    WeightedMeanBound(|cs[l]|, |cs[r]|, Mean(s, cs[l], cs[k]), Mean(s, cs[r], cs[k]),
                      Score(s, cs, l, r));
  }

  ghost predicate NonIncreasing(q: seq<real>) {
    forall i, j :: 0 <= i < j < |q| ==> q[j] <= q[i]
  }

  lemma Prepend(x: real, q: seq<real>)
    requires NonIncreasing(q) && (q != [] ==> q[0] <= x)
    ensures NonIncreasing([x] + q)
  {
  }

  /** Merges happen at non-increasing similarities: average linkage has no inversions. */
  lemma {:induction false} MergesNeverRise(s: Matrix, cs: seq<Cluster>, threshold: real)
    requires Symmetric(s) && Proper(cs)
    ensures NonIncreasing(MergeScores(s, cs, threshold))
    decreases |cs|
  {
    if |cs| > 1 && BestScore(s, cs) >= threshold {
      var next := Step(s, cs);
      MergesNeverRise(s, next, threshold);
      if |next| > 1 {
        MergedScoreBound(s, cs, Best(s, cs).0, Best(s, cs).1, Best(s, next).0, Best(s, next).1);
      }
      Prepend(BestScore(s, cs), MergeScores(s, next, threshold));
    }
  }

  // --------------------------------------------------------------- sorting --

  predicate AtMost(x: nat, y: nat) {
    x <= y
  }

  /** The indices of a group, in order. */
  function Sorted(c: Cluster): Cluster {
    Sorting.Sorted(AtMost, c)
  }

  function SortedEach(cs: seq<Cluster>): seq<Cluster> {
    seq(|cs|, i requires 0 <= i < |cs| => Sorted(cs[i]))
  }

  predicate Ascending(c: Cluster) {
    forall i, j :: 0 <= i < j < |c| ==> c[i] <= c[j]
  }

  lemma SortedSorts(c: Cluster)
    ensures Ascending(Sorted(c)) && multiset(Sorted(c)) == multiset(c)
  {
    Sorting.SortedIsOrdered(AtMost, c);
    Sorting.SortedPermutes(AtMost, c);
  }

  lemma {:induction false} SortingKeepsMembers(cs: seq<Cluster>)
    ensures Members(SortedEach(cs)) == Members(cs)
  {
    if cs != [] {
      SortingKeepsMembers(cs[1..]);
      SortedSorts(cs[0]);
      assert SortedEach(cs)[1..] == SortedEach(cs[1..]);
    }
  }
}
