/**
 The fast form of the clustering: one similarity matrix is overwritten in place, a
 merge updates one row and one column, and a slot that was merged away keeps only
 `-inf` entries.
 */
module MinedClusters {
  import opened Linkage

  /** A matrix entry: `-inf`, or a similarity. */
  datatype Entry = Inactive | Value(v: real)

  predicate Less(x: Entry, y: Entry) {
    y.Value? && (x.Value? ==> x.v < y.v)
  }

  /** One entry of the Lance-Williams update; `-inf` absorbs. */
  function Blend(m: nat, x: Entry, m': nat, y: Entry): Entry
    requires m > 0 && m' > 0
  {
    if x.Inactive? || y.Inactive? then Inactive else Value(Weighted(m, x.v, m', y.v))
  }

  // ----------------------------------------------------- slots and clusters --

  /** The clusters of a list of slots, without the empty ones. */
  function Compact(slots: seq<Cluster>): (cs: seq<Cluster>)
    ensures Proper(cs)
  {
    if slots == [] then []
    else (if slots[0] == [] then [] else [slots[0]]) + Compact(slots[1..])
  }

  lemma {:induction false} CompactAppend(a: seq<Cluster>, b: seq<Cluster>)
    ensures Compact(a + b) == Compact(a) + Compact(b)
  {
    if a == [] {
      assert a + b == b;
    } else {
      CompactAppend(a[1..], b);
      assert (a + b)[1..] == a[1..] + b && (a + b)[0] == a[0];
      var first := if a[0] == [] then [] else [a[0]];
      assert (first + Compact(a[1..])) + Compact(b) == first + (Compact(a[1..]) + Compact(b));
    }
  }

  /** The place of a non-empty slot among the clusters. */
  function Rank(slots: seq<Cluster>, i: nat): nat
    requires i <= |slots|
  {
    |Compact(slots[..i])|
  }

  lemma CompactAround(a: seq<Cluster>, c: Cluster, b: seq<Cluster>)
    requires c != []
    ensures Compact(a + [c] + b) == Compact(a) + [c] + Compact(b)
  {
    CompactAppend(a + [c], b);
    CompactAppend(a, [c]);
    assert [c][1..] == [];
  }

  lemma RankFinds(slots: seq<Cluster>, i: nat)
    requires i < |slots| && slots[i] != []
    ensures Rank(slots, i) < |Compact(slots)| && Compact(slots)[Rank(slots, i)] == slots[i]
  {
    CompactAround(slots[..i], slots[i], slots[i + 1..]);
    assert slots == slots[..i] + [slots[i]] + slots[i + 1..];
  }

  lemma RankMonotone(slots: seq<Cluster>, i: nat, j: nat)
    requires i < j < |slots| && slots[i] != []
    ensures Rank(slots, i) < Rank(slots, j)
  {
    RankFinds(slots[..j], i);
    assert slots[..j][..i] == slots[..i];
  }

  lemma {:induction false} RankOnto(slots: seq<Cluster>, k: nat) returns (i: nat)
    requires k < |Compact(slots)|
    ensures i < |slots| && slots[i] != [] && Rank(slots, i) == k
  {
    var front, last := slots[..|slots| - 1], slots[|slots| - 1];
    CompactAppend(front, [last]);
    assert slots == front + [last];
    assert Compact([last]) == if last == [] then [] else [last] by { assert Compact([last][1..]) == []; }
    if k < |Compact(front)| {
      i := RankOnto(front, k);
      assert slots[..i] == front[..i];
    } else {
      i := |slots| - 1;
      assert slots[..i] == front;
    }
  }

  lemma CompactHole(b: seq<Cluster>, c: seq<Cluster>)
    ensures Compact(b + [[]] + c) == Compact(b) + Compact(c)
  {
    var none: Cluster := [];
    assert Compact([none]) == [] by {
      assert [none][1..] == [];
    }
    CompactAppend(b + [none], c);
    CompactAppend(b, [none]);
    assert Compact(b) + [] == Compact(b);
  }

  lemma CompactParts(x: seq<Cluster>, a: Cluster, y: seq<Cluster>, b: Cluster, z: seq<Cluster>)
    requires a != [] && b != []
    ensures Compact(x + [a] + (y + [b] + z)) == Compact(x) + [a] + (Compact(y) + [b] + Compact(z))
    ensures Compact(x + [a + b] + (y + [[]] + z)) == Compact(x) + [a + b] + (Compact(y) + Compact(z))
    ensures |Compact(x + [a] + y)| == |Compact(x)| + 1 + |Compact(y)|
  {
    CompactAround(x, a, y + [b] + z);
    CompactAround(y, b, z);
    CompactAround(x, a + b, y + [[]] + z);
    CompactHole(y, z);
    CompactAround(x, a, y);
  }

  lemma MergeAround(x: seq<Cluster>, a: Cluster, y: seq<Cluster>, b: Cluster, z: seq<Cluster>)
    ensures Merge(x + [a] + (y + [b] + z), |x|, |x| + 1 + |y|) == x + [a + b] + (y + z)
  {
  }

  lemma CompactMergeParts(x: seq<Cluster>, a: Cluster, y: seq<Cluster>, b: Cluster, z: seq<Cluster>)
    requires a != [] && b != []
    ensures var cs := Compact(x + [a] + (y + [b] + z));
            && |Compact(x)| < |Compact(x + [a] + y)| < |cs|
            && Compact(x + [a + b] + (y + [[]] + z)) == Merge(cs, |Compact(x)|, |Compact(x + [a] + y)|)
  {
    CompactParts(x, a, y, b, z);
    MergeAround(Compact(x), a, Compact(y), b, Compact(z));
  }

  lemma SlotParts(slots: seq<Cluster>, a: nat, b: nat)
    requires a < b < |slots|
    ensures var x, y, z := slots[..a], slots[a + 1..b], slots[b + 1..];
            && slots == x + [slots[a]] + (y + [slots[b]] + z)
            && slots[a := slots[a] + slots[b]][b := []] == x + [slots[a] + slots[b]] + (y + [[]] + z)
            && slots[..b] == x + [slots[a]] + y
  {
  }

  /** Emptying slot `b` into slot `a` merges the two clusters. */
  lemma CompactMerge(slots: seq<Cluster>, a: nat, b: nat)
    requires a < b < |slots| && slots[a] != [] && slots[b] != []
    ensures Rank(slots, a) < Rank(slots, b) < |Compact(slots)|
    ensures Compact(slots[a := slots[a] + slots[b]][b := []]) == Merge(Compact(slots), Rank(slots, a), Rank(slots, b))
  {
    SlotParts(slots, a, b);
    CompactMergeParts(slots[..a], slots[a], slots[a + 1..b], slots[b], slots[b + 1..]);
  }

  // ------------------------------------------------------------ the matrix --

  /** What the matrix holds for two slots. */
  ghost function EntryOf(s: Matrix, slots: seq<Cluster>, i: nat, j: nat): Entry
    requires i < |slots| && j < |slots|
  {
    if i != j && slots[i] != [] && slots[j] != [] then Value(Mean(s, slots[i], slots[j])) else Inactive
  }

  /** Every entry is the mean similarity of its two slots, or `-inf`. */
  ghost predicate Represents(s: Matrix, sim: array2<Entry>, sizes: seq<nat>, slots: seq<Cluster>)
    reads sim
  {
    && sim.Length0 == sim.Length1 == |sizes| == |slots| == |s|
    && (forall i: nat, j: nat :: i < |s| && j < |s| ==> sim[i, j] == EntryOf(s, slots, i, j))
    && (forall i :: 0 <= i < |s| && slots[i] != [] ==> sizes[i] == |slots[i]|)
  }

  /** (l, r) is the first highest entry, row by row. */
  ghost predicate FirstHighest(sim: array2<Entry>, l: nat, r: nat)
    reads sim
  {
    && l < sim.Length0 && r < sim.Length1
    && (forall i: nat, j: nat :: i < sim.Length0 && j < sim.Length1 ==>
          !Less(sim[l, r], sim[i, j]) && (Before(i, j, l, r) ==> Less(sim[i, j], sim[l, r])))
  }

  /** `divmod(argmax(similarity), count)` */
  method ArgMax(sim: array2<Entry>) returns (l: nat, r: nat)
    requires sim.Length0 > 0 && sim.Length1 > 0
    ensures FirstHighest(sim, l, r)
  {
    l, r := 0, 0;
    for i := 0 to sim.Length0
      invariant l < sim.Length0 && r < sim.Length1 && (Before(l, r, i, 0) || i == l == r == 0)
      invariant forall i': nat, j': nat :: i' < i && j' < sim.Length1 ==>
                  !Less(sim[l, r], sim[i', j']) && (Before(i', j', l, r) ==> Less(sim[i', j'], sim[l, r]))
    {
      for j := 0 to sim.Length1
        invariant l < sim.Length0 && r < sim.Length1 && (Before(l, r, i, j) || (i == l == r == j == 0))
        invariant forall i': nat, j': nat :: i' < sim.Length0 && j' < sim.Length1 && Before(i', j', i, j) ==>
                    !Less(sim[l, r], sim[i', j']) && (Before(i', j', l, r) ==> Less(sim[i', j'], sim[l, r]))
      {
        if Less(sim[l, r], sim[i, j]) {
          l, r := i, j;
        }
      }
    }
  }

  /** Two occupied slots keep the highest entry off `-inf`. */
  lemma HighestIsActive(s: Matrix, sim: array2<Entry>, sizes: seq<nat>, slots: seq<Cluster>, l: nat, r: nat,
                        i: nat, j: nat)
    requires Represents(s, sim, sizes, slots) && FirstHighest(sim, l, r)
    requires i < |slots| && j < |slots| && i != j && slots[i] != [] && slots[j] != []
    ensures sim[l, r].Value?
  {
    assert sim[i, j].Value?;
  }

  /** The first highest entry of the matrix is the first best pair of the clusters. */
  lemma HighestIsBest(s: Matrix, sim: array2<Entry>, sizes: seq<nat>, slots: seq<Cluster>, l: nat, r: nat)
    requires Symmetric(s) && Represents(s, sim, sizes, slots) && FirstHighest(sim, l, r)
    ensures sim[l, r].Inactive? ==> |Compact(slots)| <= 1
    ensures sim[l, r].Value? ==>
              && l < r && slots[l] != [] && slots[r] != []
              && |Compact(slots)| > 1
              && Rank(slots, l) < Rank(slots, r) < |Compact(slots)|
              && Best(s, Compact(slots)) == (Rank(slots, l), Rank(slots, r))
              && BestScore(s, Compact(slots)) == sim[l, r].v
  {
    var cs := Compact(slots);
    if sim[l, r].Inactive? {
      if |cs| > 1 {
        var i := RankOnto(slots, 0);
        var j := RankOnto(slots, 1);
        HighestIsActive(s, sim, sizes, slots, l, r, i, j);
      }
    } else {
      MeanSymmetric(s, slots[l], slots[r]);
      assert sim[r, l] == sim[l, r];
      assert l < r;
      RankMonotone(slots, l, r);
      RankFinds(slots, l);
      RankFinds(slots, r);
      var l', r' := Rank(slots, l), Rank(slots, r);
      forall p: nat, q: nat | p < q < |cs|
        ensures Score(s, cs, p, q) <= Score(s, cs, l', r')
                && (Before(p, q, l', r') ==> Score(s, cs, p, q) < Score(s, cs, l', r'))
      {
        PairOfSlots(s, sim, sizes, slots, l, r, p, q);
      }
      assert FirstBest(s, cs, l', r');
      FirstBestUnique(s, cs, l', r', Best(s, cs).0, Best(s, cs).1);
    }
  }

  lemma PairOfSlots(s: Matrix, sim: array2<Entry>, sizes: seq<nat>, slots: seq<Cluster>, l: nat, r: nat, p: nat, q: nat)
    requires Represents(s, sim, sizes, slots) && FirstHighest(sim, l, r) && sim[l, r].Value?
    requires l < r && p < q < |Compact(slots)|
    ensures Score(s, Compact(slots), p, q) <= sim[l, r].v
    ensures Before(p, q, Rank(slots, l), Rank(slots, r)) ==> Score(s, Compact(slots), p, q) < sim[l, r].v
  {
    var i := RankOnto(slots, p);
    var j := RankOnto(slots, q);
    RankFinds(slots, i);
    RankFinds(slots, j);
    assert i != j;
    assert sim[i, j] == Value(Score(s, Compact(slots), p, q));
    if Before(p, q, Rank(slots, l), Rank(slots, r)) {
      if l < i { RankMonotone(slots, l, i); }
      if i == l && r < j { RankMonotone(slots, r, j); }
      if i == l && r == j { assert false; }
      assert Before(i, j, l, r);
    }
  }

  /** One entry of the matrix after slot `b` was merged into slot `a`. */
  ghost function Updated(old': (nat, nat) -> Entry, merged: nat -> Entry, a: nat, b: nat, i: nat, j: nat): Entry {
    if i == b || j == b || (i == a && j == a) then Inactive
    else if i == a then merged(j)
    else if j == a then merged(i)
    else old'(i, j)
  }

  /** The update is exact: it gives the means of the merged slots. */
  lemma UpdateIsExact(s: Matrix, slots: seq<Cluster>, a: nat, b: nat, i: nat, j: nat)
    requires Symmetric(s) && a < b < |slots| && slots[a] != [] && slots[b] != [] && i < |slots| && j < |slots|
    ensures EntryOf(s, slots[a := slots[a] + slots[b]][b := []], i, j)
         == Updated((i: nat, j: nat) => if i < |slots| && j < |slots| then EntryOf(s, slots, i, j) else Inactive,
                    (k: nat) => if k < |slots|
                      then Blend(|slots[a]|, EntryOf(s, slots, a, k), |slots[b]|, EntryOf(s, slots, b, k))
                         else Inactive,
                    a, b, i, j)
  {
    if i == a && j != a && j != b && slots[j] != [] {
      MeanOfUnion(s, slots[a], slots[b], slots[j]);
    } else if j == a && i != a && i != b && slots[i] != [] {
      MeanOfUnion(s, slots[a], slots[b], slots[i]);
      MeanSymmetric(s, slots[a] + slots[b], slots[i]);
    }
  }

  /** The five assignments to the matrix that one merge makes. */
  method Overwrite(sim: array2<Entry>, merged: array<Entry>, a: nat, b: nat)
    requires sim.Length0 == sim.Length1 == merged.Length && a < b < merged.Length
    modifies sim
    ensures forall i: nat, j: nat :: i < sim.Length0 && j < sim.Length1 ==>
              sim[i, j] == if i == b || j == b || (i == a && j == a) then Inactive
                           else if i == a then merged[j] else if j == a then merged[i] else old(sim[i, j])
  {
    var n := merged.Length;
    forall k | 0 <= k < n { sim[a, k] := merged[k]; }
    forall k | 0 <= k < n { sim[k, a] := merged[k]; }
    sim[a, a] := Inactive;
    forall k | 0 <= k < n { sim[b, k] := Inactive; }
    forall k | 0 <= k < n { sim[k, b] := Inactive; }
  }

  method BlendRows(sim: array2<Entry>, m: nat, a: nat, m': nat, b: nat) returns (merged: array<Entry>)
    requires sim.Length0 == sim.Length1 && a < sim.Length0 && b < sim.Length0 && m > 0 && m' > 0
    ensures fresh(merged) && merged.Length == sim.Length0
    ensures forall k: nat :: k < merged.Length ==> merged[k] == Blend(m, sim[a, k], m', sim[b, k])
  {
    merged := new Entry[sim.Length0](_ => Inactive);
    forall k | 0 <= k < merged.Length { merged[k] := Blend(m, sim[a, k], m', sim[b, k]); }
  }

  /** One merge: the update of the matrix, the sizes and the members. */
  method MergeSlots(s: Matrix, sim: array2<Entry>, sizes: array<nat>, members: array<Cluster>, a: nat, b: nat)
    requires Symmetric(s) && Represents(s, sim, sizes[..], members[..])
    requires a < b < |s| && members[a] != [] && members[b] != []
    modifies sim, sizes, members
    ensures Represents(s, sim, sizes[..], members[..])
    ensures members[..] == old(members[..])[a := old(members[a]) + old(members[b])][b := []]
  {
    ghost var slots := members[..];
    var merged := BlendRows(sim, sizes[a], a, sizes[b], b);
    Overwrite(sim, merged, a, b);
    sizes[a] := sizes[a] + sizes[b];
    members[a] := members[a] + members[b];
    members[b] := [];
    assert members[..] == slots[a := slots[a] + slots[b]][b := []];
    forall i: nat, j: nat | i < |s| && j < |s| ensures sim[i, j] == EntryOf(s, members[..], i, j) {
      UpdateIsExact(s, slots, a, b, i, j);
    }
  }

  lemma MeanOfSingletons(s: Matrix, i: nat, j: nat)
    requires Symmetric(s) && i < |s| && j < |s|
    ensures Mean(s, [i], [j]) == s[i][j]
  {
    assert [i][1..] == [] && [j][1..] == [];
    assert RowSum(s, i, [j]) == At(s, i, j) + RowSum(s, i, []);
    assert CrossSum(s, [i], [j]) == RowSum(s, i, [j]) + CrossSum(s, [], [j]);
  }

  lemma {:induction false} NoEmptySlot(slots: seq<Cluster>)
    requires Proper(slots)
    ensures Compact(slots) == slots
  {
    if slots != [] {
      assert Proper(slots[1..]);
      NoEmptySlot(slots[1..]);
    }
  }

  /** Every comment in a cluster of its own. */
  method EachAlone(s: Matrix) returns (sim: array2<Entry>, sizes: array<nat>, members: array<Cluster>)
    requires Symmetric(s)
    ensures fresh(sim) && fresh(sizes) && fresh(members)
    ensures Represents(s, sim, sizes[..], members[..]) && members[..] == Singletons(|s|)
  {
    var n := |s|;
    sim := new Entry[n, n]((i, j) => if i == j || i < 0 || j < 0 then Inactive else Value(At(s, i, j)));
    sizes := new nat[n](_ => 1);
    members := new Cluster[n](i => if i < 0 then [] else [i]);
    assert members[..] == Singletons(n);
    forall i: nat, j: nat | i < n && j < n ensures sim[i, j] == EntryOf(s, members[..], i, j) {
      MeanOfSingletons(s, i, j);
    }
  }

  method Agglomerate(s: Matrix, threshold: real) returns (out: seq<Cluster>)
    requires Symmetric(s)
    ensures out == SortedEach(Greedy(s, Singletons(|s|), threshold))
  {
    if |s| == 0 {
      return [];
    }
    var n := |s|;
    var sim, sizes, members := EachAlone(s);
    NoEmptySlot(Singletons(n));
    while true
      invariant fresh(sim) && fresh(sizes) && fresh(members)
      invariant Represents(s, sim, sizes[..], members[..])
      invariant Greedy(s, Compact(members[..]), threshold) == Greedy(s, Singletons(n), threshold)
      decreases |Compact(members[..])|
    {
      var left, right := ArgMax(sim);
      HighestIsBest(s, sim, sizes[..], members[..], left, right);
      var best := sim[left, right];
      if best.Inactive? || best.v < threshold {
        break;
      }
      var a, b := if left < right then left else right, if left < right then right else left;
      CompactMerge(members[..], a, b);
      MergeSlots(s, sim, sizes, members, a, b);
    }
    out := SortedEach(Compact(members[..]));
  }
}
