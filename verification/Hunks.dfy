/**
 Changed line ranges: the hunks of one file, merged into disjoint spans.
 */
module Hunks {
  import Sorting

  /** The first and the last changed line. */
  datatype Span = Span(first: int, last: int)

  // ---------------------------------------------------------------- sorting --

  /** Python's order on pairs. */
  predicate Below(a: Span, b: Span) {
    a.first < b.first || (a.first == b.first && a.last <= b.last)
  }

  function Sorted(spans: seq<Span>): seq<Span> {
    Sorting.Sorted(Below, spans)
  }

  ghost predicate Ascending(spans: seq<Span>) {
    forall i, j :: 0 <= i < j < |spans| ==> spans[i].first <= spans[j].first
  }

  lemma SortedSorts(spans: seq<Span>)
    ensures Ascending(Sorted(spans))
    ensures forall x :: x in Sorted(spans) <==> x in spans
  {
    Sorting.SortedIsOrdered(Below, spans);
    Sorting.SortedHasTheSame(Below, spans);
    assert Sorting.Ordered(Below, Sorted(spans));
  }

  // ---------------------------------------------------------------- merging --

  predicate On(s: Span, line: int) {
    s.first <= line <= s.last
  }

  predicate Covers(spans: seq<Span>, line: int) {
    exists i :: 0 <= i < |spans| && On(spans[i], line)
  }

  /** In order, and with at least one unchanged line between two spans. */
  ghost predicate Gapped(spans: seq<Span>) {
    forall i, j :: 0 <= i < j < |spans| ==> spans[i].last + 1 < spans[j].first
  }

  ghost predicate NonEmpty(spans: seq<Span>) {
    forall i :: 0 <= i < |spans| ==> spans[i].first <= spans[i].last
  }

  lemma CoversAppend(a: seq<Span>, b: seq<Span>, line: int)
    ensures Covers(a + b, line) <==> Covers(a, line) || Covers(b, line)
  {
    if Covers(a, line) {
      var i :| 0 <= i < |a| && On(a[i], line);
      assert On((a + b)[i], line);
    }
    if Covers(b, line) {
      var i :| 0 <= i < |b| && On(b[i], line);
      assert On((a + b)[|a| + i], line);
    }
  }

  lemma CoversOne(s: Span, line: int)
    ensures Covers([s], line) <==> On(s, line)
  {
    assert On(s, line) ==> On([s][0], line);
  }

  /** The same lines, as spans that neither touch nor overlap. */
  ghost predicate IsMerge(spans: seq<Span>, merged: seq<Span>) {
    && (forall line :: Covers(merged, line) <==> Covers(spans, line))
    && Gapped(merged)
    && (NonEmpty(spans) ==> NonEmpty(merged))
  }

  function Widened(p: Span, s: Span): Span {
    Span(p.first, if p.last < s.last then s.last else p.last)
  }

  /** `_merge` */
  method Merge(spans: seq<Span>) returns (merged: seq<Span>)
    ensures IsMerge(spans, merged)
  {
    var sorted := Sorted(spans);
    SortedSorts(spans);
    merged := [];
    for i := 0 to |sorted|
      invariant IsMerge(sorted[..i], merged)
      invariant merged != [] && i < |sorted| ==> merged[|merged| - 1].first <= sorted[i].first
    {
      var s := sorted[i];
      assert sorted[..i + 1] == sorted[..i] + [s];
      if merged != [] && s.first <= merged[|merged| - 1].last + 1 {
        JoinedIsMerge(sorted[..i], merged, s);
        merged := merged[..|merged| - 1] + [Widened(merged[|merged| - 1], s)];
      } else {
        AppendedIsMerge(sorted[..i], merged, s);
        merged := merged + [s];
      }
    }
    assert sorted[..|sorted|] == sorted;
    SameSpansMerge(sorted, spans, merged);
  }

  lemma JoinedIsMerge(spans: seq<Span>, merged: seq<Span>, s: Span)
    requires IsMerge(spans, merged) && merged != []
    requires merged[|merged| - 1].first <= s.first <= merged[|merged| - 1].last + 1
    ensures IsMerge(spans + [s], merged[..|merged| - 1] + [Widened(merged[|merged| - 1], s)])
  {
    forall line ensures Covers(merged[..|merged| - 1] + [Widened(merged[|merged| - 1], s)], line)
      <==> Covers(spans + [s], line) {
      Joined(merged, s, line);
      CoversAppend(spans, [s], line);
      CoversOne(s, line);
    }
    if NonEmpty(spans + [s]) { PrefixNonEmpty(spans, s); }
  }

  lemma AppendedIsMerge(spans: seq<Span>, merged: seq<Span>, s: Span)
    requires IsMerge(spans, merged) && (merged != [] ==> merged[|merged| - 1].last + 1 < s.first)
    requires merged != [] ==> merged[|merged| - 1].first <= s.first
    ensures IsMerge(spans + [s], merged + [s])
  {
    forall line ensures Covers(merged + [s], line) <==> Covers(spans + [s], line) {
      CoversAppend(merged, [s], line);
      CoversAppend(spans, [s], line);
    }
    if NonEmpty(spans + [s]) { PrefixNonEmpty(spans, s); }
    assert Gapped(merged + [s]);
  }

  lemma PrefixNonEmpty(spans: seq<Span>, s: Span)
    requires NonEmpty(spans + [s])
    ensures NonEmpty(spans) && s.first <= s.last
  {
    forall i | 0 <= i < |spans| ensures spans[i].first <= spans[i].last {
      assert (spans + [s])[i] == spans[i];
    }
    assert (spans + [s])[|spans|] == s;
  }

  lemma SameSpansMerge(a: seq<Span>, b: seq<Span>, merged: seq<Span>)
    requires IsMerge(a, merged) && forall x :: x in a <==> x in b
    ensures IsMerge(b, merged)
  {
    forall line ensures Covers(merged, line) <==> Covers(b, line) {
      SameSpans(a, b, line);
    }
    if NonEmpty(b) {
      SameEmptiness(a, b);
    }
  }

  lemma SameEmptiness(a: seq<Span>, b: seq<Span>)
    requires NonEmpty(b) && forall x <- a :: x in b
    ensures NonEmpty(a)
  {
    forall i | 0 <= i < |a| ensures a[i].first <= a[i].last {
      assert a[i] in b;
    }
  }

  lemma SameSpans(a: seq<Span>, b: seq<Span>, line: int)
    requires forall x :: x in a <==> x in b
    ensures Covers(a, line) <==> Covers(b, line)
  {
    if Covers(a, line) {
      var i :| 0 <= i < |a| && On(a[i], line);
      assert a[i] in b;
    }
    if Covers(b, line) {
      var i :| 0 <= i < |b| && On(b[i], line);
      assert b[i] in a;
    }
  }

  /** Widening the last span by one that starts in it or right after it adds that span's lines. */
  lemma Joined(merged: seq<Span>, s: Span, line: int)
    requires merged != []
    requires merged[|merged| - 1].first <= s.first <= merged[|merged| - 1].last + 1
    ensures Covers(merged[..|merged| - 1] + [Widened(merged[|merged| - 1], s)], line)
            <==> Covers(merged, line) || On(s, line)
  {
    var front, p := merged[..|merged| - 1], merged[|merged| - 1];
    var wide := Widened(p, s);
    assert merged == front + [p];
    CoversAppend(front, [p], line);
    CoversAppend(front, [wide], line);
    CoversOne(p, line);
    CoversOne(wide, line);
  }

  // --------------------------------------------------------- what a merge means --

  lemma FirstLine(a: seq<Span>, b: seq<Span>)
    requires Gapped(a) && NonEmpty(a) && NonEmpty(b) && a != [] && b != []
    requires forall line :: Covers(b, line) ==> Covers(a, line)
    ensures a[0].first <= b[0].first
  {
    assert On(b[0], b[0].first);
    assert Covers(a, b[0].first);
    var i :| 0 <= i < |a| && On(a[i], b[0].first);
    assert i > 0 ==> a[0].last + 1 < a[i].first;
  }

  lemma FirstGap(a: seq<Span>)
    requires Gapped(a) && NonEmpty(a) && a != []
    ensures Covers(a, a[0].first) && !Covers(a, a[0].last + 1)
  {
    assert On(a[0], a[0].first);
    forall i | 0 <= i < |a| ensures !On(a[i], a[0].last + 1) {
      assert i > 0 ==> a[0].last + 1 < a[i].first;
    }
  }

  lemma FirstEnd(a: seq<Span>, b: seq<Span>)
    requires Gapped(a) && NonEmpty(a) && NonEmpty(b) && a != [] && b != [] && a[0].first == b[0].first
    requires forall line :: Covers(b, line) ==> Covers(a, line)
    ensures b[0].last <= a[0].last
  {
    FirstGap(a);
    assert a[0].last < b[0].last ==> On(b[0], a[0].last + 1);
  }

  lemma CoversRest(a: seq<Span>, line: int)
    requires Gapped(a) && NonEmpty(a) && a != []
    ensures Covers(a[1..], line) <==> Covers(a, line) && a[0].last < line
  {
    assert a == [a[0]] + a[1..];
    CoversAppend([a[0]], a[1..], line);
    CoversOne(a[0], line);
    if Covers(a[1..], line) {
      var i :| 0 <= i < |a[1..]| && On(a[1..][i], line);
      assert a[0].last + 1 < a[i + 1].first;
    }
  }

  /** Disjoint, separated spans are determined by the lines they cover. */
  lemma {:induction false} Canonical(a: seq<Span>, b: seq<Span>)
    requires Gapped(a) && Gapped(b) && NonEmpty(a) && NonEmpty(b)
    requires forall line :: Covers(a, line) <==> Covers(b, line)
    ensures a == b
    decreases |a|
  {
    if a == [] {
      if b != [] { FirstGap(b); }
    } else if b == [] {
      FirstGap(a);
    } else {
      FirstLine(a, b);
      FirstLine(b, a);
      FirstEnd(a, b);
      FirstEnd(b, a);
      RestsCoverTheSame(a, b);
      Canonical(a[1..], b[1..]);
      assert a == [a[0]] + a[1..] && b == [b[0]] + b[1..];
    }
  }

  lemma RestsCoverTheSame(a: seq<Span>, b: seq<Span>)
    requires Gapped(a) && Gapped(b) && NonEmpty(a) && NonEmpty(b) && a != [] && b != [] && a[0] == b[0]
    requires forall line :: Covers(a, line) <==> Covers(b, line)
    ensures forall line :: Covers(a[1..], line) <==> Covers(b[1..], line)
  {
    forall line ensures Covers(a[1..], line) <==> Covers(b[1..], line) {
      CoversRest(a, line);
      CoversRest(b, line);
    }
  }

  /** The merge depends only on which lines changed, not on how git cut or ordered the hunks. */
  lemma MergeIsDetermined(spans: seq<Span>, merged: seq<Span>, spans': seq<Span>, merged': seq<Span>)
    requires IsMerge(spans, merged) && IsMerge(spans', merged') && NonEmpty(spans) && NonEmpty(spans')
    requires forall line :: Covers(spans, line) <==> Covers(spans', line)
    ensures merged == merged'
  {
    Canonical(merged, merged');
  }

  /** `_overlaps`, for a symbol's lines. */
  predicate Overlaps(symbol: Span, spans: seq<Span>) {
    exists i :: 0 <= i < |spans| && symbol.first <= spans[i].last && spans[i].first <= symbol.last
  }

  /** A symbol overlaps the spans exactly if one of its own lines changed. */
  lemma OverlapIsAChangedLine(symbol: Span, spans: seq<Span>)
    requires symbol.first <= symbol.last && NonEmpty(spans)
    ensures Overlaps(symbol, spans) <==> exists line :: On(symbol, line) && Covers(spans, line)
  {
    if Overlaps(symbol, spans) {
      var i :| 0 <= i < |spans| && symbol.first <= spans[i].last && spans[i].first <= symbol.last;
      var line := if symbol.first < spans[i].first then spans[i].first else symbol.first;
      assert On(symbol, line) && On(spans[i], line);
    }
    if line :| On(symbol, line) && Covers(spans, line) {
      var i :| 0 <= i < |spans| && On(spans[i], line);
      assert symbol.first <= spans[i].last && spans[i].first <= symbol.last;
    }
  }

  /** Merging the hunks does not change which symbols they touch. */
  lemma MergeKeepsOverlaps(symbol: Span, spans: seq<Span>, merged: seq<Span>)
    requires symbol.first <= symbol.last && NonEmpty(spans) && IsMerge(spans, merged)
    ensures Overlaps(symbol, merged) <==> Overlaps(symbol, spans)
  {
    OverlapIsAChangedLine(symbol, spans);
    OverlapIsAChangedLine(symbol, merged);
  }
}
