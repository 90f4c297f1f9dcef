/**
 The squarified treemap: a rectangle cut into one cell per item.

 Coordinates and areas are exact reals.
 */
module Treemap {
  import opened Products

  datatype Rect = Rect(x: real, y: real, w: real, h: real)

  function Sum(s: seq<real>): real {
    if s == [] then 0.0 else Sum(s[..|s| - 1]) + s[|s| - 1]
  }

  function Largest(s: seq<real>): real
    requires s != []
  {
    if |s| == 1 then s[0]
    else
      var m := Largest(s[..|s| - 1]);
      if m < s[|s| - 1] then s[|s| - 1] else m
  }

  function Smallest(s: seq<real>): real
    requires s != []
  {
    if |s| == 1 then s[0]
    else
      var m := Smallest(s[..|s| - 1]);
      if s[|s| - 1] < m then s[|s| - 1] else m
  }

  predicate Positive(s: seq<real>) {
    forall i :: 0 <= i < |s| ==> 0.0 < s[i]
  }

  lemma {:induction false} SumPositive(s: seq<real>)
    requires Positive(s)
    ensures 0.0 <= Sum(s) && (s != [] ==> 0.0 < Sum(s))
  {
    if s != [] {
      SumPositive(s[..|s| - 1]);
    }
  }

  lemma {:induction false} SumAppend(a: seq<real>, b: seq<real>)
    ensures Sum(a + b) == Sum(a) + Sum(b)
  {
    if b == [] {
      assert a + b == a;
    } else {
      SumAppend(a, b[..|b| - 1]);
      assert (a + b)[..|a + b| - 1] == a + b[..|b| - 1];
    }
  }

  lemma {:induction false} LargestIs(s: seq<real>) returns (i: nat)
    requires s != []
    ensures i < |s| && s[i] == Largest(s) && forall j :: 0 <= j < |s| ==> s[j] <= Largest(s)
  {
    if |s| == 1 {
      i := 0;
    } else {
      i := LargestIs(s[..|s| - 1]);
      if Largest(s[..|s| - 1]) < s[|s| - 1] { i := |s| - 1; }
      assert forall j :: 0 <= j < |s| - 1 ==> s[j] == s[..|s| - 1][j];
    }
  }

  lemma {:induction false} SmallestIs(s: seq<real>) returns (i: nat)
    requires s != []
    ensures i < |s| && s[i] == Smallest(s) && forall j :: 0 <= j < |s| ==> Smallest(s) <= s[j]
  {
    if |s| == 1 {
      i := 0;
    } else {
      i := SmallestIs(s[..|s| - 1]);
      if s[|s| - 1] < Smallest(s[..|s| - 1]) { i := |s| - 1; }
      assert forall j :: 0 <= j < |s| - 1 ==> s[j] == s[..|s| - 1][j];
    }
  }

  // ------------------------------------------------------------- real arithmetic --

  /** A product as a term of its own. */
  function Times(a: real, b: real): real {
    a * b
  }

  function Square(a: real): real {
    Times(a, a)
  }

  lemma TimesPositive(a: real, b: real)
    requires 0.0 < a && 0.0 < b
    ensures 0.0 < Times(a, b)
  {
  }

  // ------------------------------------------------------------------- one row --

  /** A cell's share of the side the row is laid along. */
  function Extent(area: real, sum: real, side: real): real
    requires 0.0 < sum
  {
    area / sum * side
  }

  /** How far along the side the first `i` cells reach. */
  function Reach(row: seq<real>, sum: real, side: real, i: nat): real
    requires 0.0 < sum && i <= |row|
  {
    if i == 0 then 0.0 else Reach(row, sum, side, i - 1) + Extent(row[i - 1], sum, side)
  }

  lemma ExtentAdds(a: real, b: real, sum: real, side: real)
    requires 0.0 < sum
    ensures Extent(a + b, sum, side) == Extent(a, sum, side) + Extent(b, sum, side)
  {
    var p, q, r := a / sum, b / sum, (a + b) / sum;
    Undo(a, sum);
    Undo(b, sum);
    Undo(a + b, sum);
    assert (p + q) * sum == p * sum + q * sum;
    ProductOrdered(p + q, r, sum);
    assert (p + q) * side == p * side + q * side;
  }

  lemma ExtentPositive(area: real, sum: real, side: real)
    requires 0.0 < area && 0.0 < sum && 0.0 < side
    ensures 0.0 < Extent(area, sum, side)
  {
    Undo(area, sum);
    ProductPositive(area / sum, side);
  }

  /** The cells fill the side from end to end. */
  lemma {:induction false} ReachIsShare(row: seq<real>, sum: real, side: real, i: nat)
    requires 0.0 < sum && i <= |row|
    ensures Reach(row, sum, side, i) == Extent(Sum(row[..i]), sum, side)
  {
    if i == 0 {
      assert 0.0 / sum == 0.0;
    } else {
      ReachIsShare(row, sum, side, i - 1);
      assert row[..i][..i - 1] == row[..i - 1];
      ExtentAdds(Sum(row[..i - 1]), row[i - 1], sum, side);
    }
  }

  lemma {:induction false} ReachOrdered(row: seq<real>, sum: real, side: real, i: nat, j: nat)
    requires 0.0 < sum && 0.0 < side && Positive(row) && i < j <= |row|
    ensures 0.0 <= Reach(row, sum, side, i)
    ensures Reach(row, sum, side, i) + Extent(row[i], sum, side) <= Reach(row, sum, side, j)
    decreases j, i
  {
    ExtentPositive(row[j - 1], sum, side);
    if i < j - 1 {
      ReachOrdered(row, sum, side, i, j - 1);
    } else if i > 0 {
      ReachOrdered(row, sum, side, i - 1, i);
      ExtentPositive(row[i - 1], sum, side);
    }
  }

  /** The cell of the row that a distance along the side falls into. */
  lemma {:induction false} CellAt(row: seq<real>, sum: real, side: real, n: nat, d: real) returns (i: nat)
    requires 0.0 < sum && n <= |row| && 0.0 <= d < Reach(row, sum, side, n)
    ensures i < n && Reach(row, sum, side, i) <= d < Reach(row, sum, side, i) + Extent(row[i], sum, side)
  {
    if Reach(row, sum, side, n - 1) <= d {
      i := n - 1;
    } else {
      i := CellAt(row, sum, side, n - 1, d);
    }
  }

  // ------------------------------------------------------------------ rectangles --

  predicate Vertical(r: Rect) {
    r.w >= r.h
  }

  /** The side a row is laid along, which is the shorter one, and the other. */
  function Side(r: Rect): real {
    if Vertical(r) then r.h else r.w
  }

  function Across(r: Rect): real {
    if Vertical(r) then r.w else r.h
  }

  function Cell(r: Rect, thickness: real, reach: real, extent: real): Rect {
    if Vertical(r) then Rect(r.x, r.y + reach, thickness, extent) else Rect(r.x + reach, r.y, extent, thickness)
  }

  /** What a row of this thickness leaves of the rectangle. */
  function Rest(r: Rect, thickness: real): Rect {
    if Vertical(r) then Rect(r.x + thickness, r.y, r.w - thickness, r.h)
    else Rect(r.x, r.y + thickness, r.w, r.h - thickness)
  }

  predicate Inside(c: Rect, r: Rect) {
    r.x <= c.x && r.y <= c.y && c.x + c.w <= r.x + r.w && c.y + c.h <= r.y + r.h
  }

  /** No interior point in common. */
  predicate Apart(a: Rect, b: Rect) {
    a.x + a.w <= b.x || b.x + b.w <= a.x || a.y + a.h <= b.y || b.y + b.h <= a.y
  }

  predicate Contains(r: Rect, px: real, py: real) {
    r.x <= px < r.x + r.w && r.y <= py < r.y + r.h
  }

  predicate Covered(cells: seq<Rect>, px: real, py: real) {
    exists i :: 0 <= i < |cells| && Contains(cells[i], px, py)
  }

  /** The cells lie in the rectangle, do not overlap, and leave no point of it out. */
  ghost predicate Tiles(cells: seq<Rect>, r: Rect) {
    && (forall i :: 0 <= i < |cells| ==> Inside(cells[i], r))
    && (forall i, j :: 0 <= i < j < |cells| ==> Apart(cells[i], cells[j]))
    && (forall px, py :: Contains(r, px, py) ==> Covered(cells, px, py))
  }

  // ----------------------------------------------------------------- one row, placed --

  predicate Room(r: Rect, sum: real) {
    0.0 < r.w && 0.0 < r.h && 0.0 < sum <= Times(r.w, r.h)
  }

  function Thickness(r: Rect, sum: real): real
    requires 0.0 < Side(r)
  {
    sum / Side(r)
  }

  lemma TimesCompares(a: real, b: real, factor: real)
    requires 0.0 < factor
    ensures a <= b <==> Times(a, factor) <= Times(b, factor)
    ensures a == b <==> Times(a, factor) == Times(b, factor)
  {
    ProductOrdered(b, a, factor);
  }

  lemma AreaBySides(r: Rect)
    ensures Times(Across(r), Side(r)) == Times(r.w, r.h)
  {
  }

  lemma ThicknessFits(r: Rect, sum: real)
    requires Room(r, sum)
    ensures 0.0 < Thickness(r, sum) <= Across(r)
    ensures Thickness(r, sum) == Across(r) <==> sum == Times(r.w, r.h)
    ensures Times(Thickness(r, sum), Side(r)) == sum
  {
    Undo(sum, Side(r));
    AreaBySides(r);
    TimesCompares(Thickness(r, sum), Across(r), Side(r));
  }

  function RowCells(row: seq<real>, r: Rect): seq<Rect>
    requires 0.0 < Side(r) && 0.0 < Sum(row)
  {
    var sum := Sum(row);
    seq(|row|, i requires 0 <= i < |row| =>
      Cell(r, Thickness(r, sum), Reach(row, sum, Side(r), i), Extent(row[i], sum, Side(r))))
  }

  lemma CellArea(row: seq<real>, r: Rect, i: nat)
    requires Positive(row) && i < |row| && Room(r, Sum(row))
    ensures var c := RowCells(row, r)[i]; 0.0 < c.w && 0.0 < c.h && Times(c.w, c.h) == row[i]
  {
    var sum, side, area := Sum(row), Side(r), row[i];
    var t, e := Thickness(r, sum), Extent(area, sum, side);
    ThicknessFits(r, sum);
    ExtentPositive(area, sum, side);
    Undo(area, sum);
    AreaOf(area, sum, side, t, e, area / sum);
  }

  lemma AreaOf(area: real, sum: real, side: real, t: real, e: real, share: real)
    requires share * sum == area && e == share * side && t * side == sum
    ensures Times(t, e) == area && Times(e, t) == area
  {
    assert t * (share * side) == share * (t * side);
  }

  /** A row fills a strip of the rectangle; the rest is untouched. */
  lemma RowFillsStrip(row: seq<real>, r: Rect)
    requires Positive(row) && row != [] && Room(r, Sum(row))
    ensures var cells, rest := RowCells(row, r), Rest(r, Thickness(r, Sum(row)));
            && (forall i :: 0 <= i < |cells| ==> Inside(cells[i], r) && Apart(cells[i], rest))
            && (forall i, j :: 0 <= i < j < |cells| ==> Apart(cells[i], cells[j]))
            && (forall px, py :: Contains(r, px, py) ==> Covered(cells, px, py) || Contains(rest, px, py))
  {
    var cells, rest := RowCells(row, r), Rest(r, Thickness(r, Sum(row)));
    forall i | 0 <= i < |cells| ensures Inside(cells[i], r) && Apart(cells[i], rest) {
      CellInStrip(row, r, i);
    }
    forall i, j | 0 <= i < j < |cells| ensures Apart(cells[i], cells[j]) {
      ReachOrdered(row, Sum(row), Side(r), i, j);
    }
    forall px, py | Contains(r, px, py) && !Contains(rest, px, py) ensures Covered(cells, px, py) {
      StripCovered(row, r, px, py);
    }
  }

  lemma RowEnd(row: seq<real>, r: Rect)
    requires Positive(row) && row != [] && Room(r, Sum(row))
    ensures Reach(row, Sum(row), Side(r), |row|) == Side(r)
  {
    ReachIsShare(row, Sum(row), Side(r), |row|);
    assert row[..|row|] == row;
    Undo(Sum(row), Sum(row));
    ProductOrdered(Sum(row) / Sum(row), 1.0, Sum(row));
  }

  lemma CellInStrip(row: seq<real>, r: Rect, i: nat)
    requires Positive(row) && i < |row| && Room(r, Sum(row))
    ensures var c := RowCells(row, r)[i]; Inside(c, r) && Apart(c, Rest(r, Thickness(r, Sum(row))))
  {
    RowEnd(row, r);
    ThicknessFits(r, Sum(row));
    ReachOrdered(row, Sum(row), Side(r), i, |row|);
  }

  lemma StripCovered(row: seq<real>, r: Rect, px: real, py: real)
    requires Positive(row) && row != [] && Room(r, Sum(row))
    requires Contains(r, px, py) && !Contains(Rest(r, Thickness(r, Sum(row))), px, py)
    ensures Covered(RowCells(row, r), px, py)
  {
    RowEnd(row, r);
    var i := CellAt(row, Sum(row), Side(r), |row|, if Vertical(r) then py - r.y else px - r.x);
    assert Contains(RowCells(row, r)[i], px, py);
  }

  // --------------------------------------------------------------- aspect ratio --

  function Max(a: real, b: real): real {
    if a < b then b else a
  }

  lemma WorstIsDefined(row: seq<real>, side: real)
    requires row != [] && Positive(row) && 0.0 < side
    ensures 0.0 < Square(Sum(row)) && 0.0 < Times(Square(side), Smallest(row))
  {
    var i := SmallestIs(row);
    SumPositive(row);
    TimesPositive(Sum(row), Sum(row));
    TimesPositive(side, side);
    TimesPositive(Square(side), Smallest(row));
  }

  /** `worst` */
  function Worst(row: seq<real>, side: real): real
    requires row != [] && Positive(row) && 0.0 < side
  {
    WorstIsDefined(row, side);
    Max(Times(Square(side), Largest(row)) / Square(Sum(row)), Square(Sum(row)) / Times(Square(side), Smallest(row)))
  }

  /** How far a cell is from a square. */
  function Aspect(c: Rect): real
    requires 0.0 < c.w && 0.0 < c.h
  {
    Max(c.w / c.h, c.h / c.w)
  }

  lemma Ratio(a: real, b: real, c: real, d: real)
    requires 0.0 < b && 0.0 < d && a * d == c * b
    ensures a / b == c / d
  {
    Undo(a, b);
    Undo(c, d);
    var p, q := a / b, c / d;
    assert p * b * d == q * d * b;
    Regroup(p, q, b, d);
    ProductPositive(b, d);
    ProductOrdered(p, q, b * d);
  }

  lemma Regroup(p: real, q: real, b: real, d: real)
    requires p * b * d == q * d * b
    ensures p * (b * d) == q * (b * d)
  {
  }

  /** With `t` the thickness and `e` the extent, `e / t` and `t / e` in terms of the areas. */
  lemma CellRatios(area: real, sum: real, side: real, t: real, e: real)
    requires 0.0 < area && 0.0 < sum && 0.0 < side && 0.0 < t && 0.0 < e
    requires Times(t, side) == sum && Times(e, sum) == Times(area, side)
    ensures 0.0 < Square(sum) && 0.0 < Times(Square(side), area)
    ensures e / t == Times(Square(side), area) / Square(sum) && t / e == Square(sum) / Times(Square(side), area)
  {
    TimesPositive(sum, sum);
    TimesPositive(side, side);
    TimesPositive(Square(side), area);
    Cross(area, sum, side, t, e);
    Ratio(e, t, Times(Square(side), area), Square(sum));
    Ratio(t, e, Square(sum), Times(Square(side), area));
  }

  lemma Cross(area: real, sum: real, side: real, t: real, e: real)
    requires t * side == sum && e * sum == area * side
    ensures e * Square(sum) == Times(Square(side), area) * t
    ensures t * Times(Square(side), area) == Square(sum) * e
  {
    calc {
      e * (sum * sum);
      (e * sum) * sum;
      area * side * (t * side);
      side * side * area * t;
    }
  }

  /** `worst` is the worst aspect ratio of the cells the row would get. */
  lemma WorstIsTheWorstAspect(row: seq<real>, r: Rect)
    requires row != [] && Positive(row) && Room(r, Sum(row))
    ensures var cells := RowCells(row, r);
            && (forall i :: 0 <= i < |row| ==>
                  0.0 < cells[i].w && 0.0 < cells[i].h && Aspect(cells[i]) <= Worst(row, Side(r)))
            && (exists i ::
                  0 <= i < |row| && 0.0 < cells[i].w && 0.0 < cells[i].h && Aspect(cells[i]) == Worst(row, Side(r)))
  {
    var cells := RowCells(row, r);
    var most := LargestIs(row);
    var least := SmallestIs(row);
    forall i | 0 <= i < |row|
      ensures 0.0 < cells[i].w && 0.0 < cells[i].h && Aspect(cells[i]) <= Worst(row, Side(r)) {
      AspectOf(row, r, i);
      CellArea(row, r, i);
      RatiosOrdered(row[i], Largest(row), Sum(row), Side(r));
      RatiosOrdered(Smallest(row), row[i], Sum(row), Side(r));
    }
    AspectOf(row, r, most);
    AspectOf(row, r, least);
  }

  /** The ratio of extent to thickness of a cell of this area, and the inverse. */
  function Long(area: real, sum: real, side: real): real
    requires 0.0 < Square(sum)
  {
    Times(Square(side), area) / Square(sum)
  }

  function Wide(area: real, sum: real, side: real): real
    requires 0.0 < Times(Square(side), area)
  {
    Square(sum) / Times(Square(side), area)
  }

  lemma AspectOf(row: seq<real>, r: Rect, i: nat)
    requires Positive(row) && i < |row| && Room(r, Sum(row))
    ensures var c := RowCells(row, r)[i];
            && 0.0 < c.w && 0.0 < c.h && 0.0 < Square(Sum(row)) && 0.0 < Times(Square(Side(r)), row[i])
            && Aspect(c) == Max(Long(row[i], Sum(row), Side(r)), Wide(row[i], Sum(row), Side(r)))
  {
    var sum, side, area := Sum(row), Side(r), row[i];
    CellArea(row, r, i);
    ThicknessFits(r, sum);
    ExtentPositive(area, sum, side);
    ExtentTimesSum(area, sum, side);
    CellRatios(area, sum, side, Thickness(r, sum), Extent(area, sum, side));
  }

  lemma ExtentTimesSum(area: real, sum: real, side: real)
    requires 0.0 < sum
    ensures Times(Extent(area, sum, side), sum) == Times(area, side)
  {
    Undo(area, sum);
    Exchange(area / sum, side, sum, area);
  }

  lemma Exchange(share: real, side: real, sum: real, area: real)
    requires share * sum == area
    ensures share * side * sum == area * side
  {
  }

  /** More area makes a cell longer and less wide. */
  lemma RatiosOrdered(a: real, b: real, sum: real, side: real)
    requires 0.0 < a <= b && 0.0 < sum && 0.0 < side
    ensures 0.0 < Square(sum) && 0.0 < Times(Square(side), a) <= Times(Square(side), b)
    ensures Long(a, sum, side) <= Long(b, sum, side) && Wide(b, sum, side) <= Wide(a, sum, side)
  {
    TimesPositive(sum, sum);
    TimesPositive(side, side);
    TimesPositive(Square(side), a);
    TimesOrdered(Square(side), a, b);
    QuotientsOrdered(Times(Square(side), a), Times(Square(side), b), Square(sum));
    InversesOrdered(Square(sum), Times(Square(side), a), Times(Square(side), b));
  }

  lemma TimesOrdered(factor: real, a: real, b: real)
    requires 0.0 < factor && a <= b
    ensures Times(factor, a) <= Times(factor, b)
  {
  }

  lemma QuotientsOrdered(a: real, b: real, d: real)
    requires a <= b && 0.0 < d
    ensures a / d <= b / d
  {
    Undo(a, d);
    Undo(b, d);
    ProductOrdered(b / d, a / d, d);
  }

  lemma InversesOrdered(n: real, a: real, b: real)
    requires 0.0 < n && 0.0 < a <= b
    ensures n / b <= n / a
  {
    var p, q := n / a, n / b;
    Undo(n, a);
    Undo(n, b);
    assert q * a <= q * b;
    ProductOrdered(p, q, a);
  }

  // ---------------------------------------------------------------- the layout --

  lemma PartsPositive(areas: seq<real>, k: nat)
    requires Positive(areas) && k <= |areas|
    ensures Positive(areas[..k]) && Positive(areas[k..])
    ensures Sum(areas) == Sum(areas[..k]) + Sum(areas[k..])
  {
    PartsSum(areas, k);
    RestIsPositive(areas, k);
  }

  lemma PartsSum(areas: seq<real>, k: nat)
    requires k <= |areas|
    ensures Sum(areas) == Sum(areas[..k]) + Sum(areas[k..])
  {
    SumAppend(areas[..k], areas[k..]);
    assert areas == areas[..k] + areas[k..];
  }

  lemma RestIsPositive(areas: seq<real>, k: nat)
    requires Positive(areas) && k <= |areas|
    ensures Positive(areas[k..])
  {
    forall i | 0 <= i < |areas[k..]| ensures 0.0 < areas[k..][i] {
      assert areas[k..][i] == areas[k + i];
    }
  }

  /** A row takes items for as long as the next one does not make its worst cell worse. */
  predicate Grows(areas: seq<real>, side: real, k: nat)
    requires Positive(areas) && 0.0 < side && 0 < k
  {
    k < |areas| && Worst(areas[..k + 1], side) <= Worst(areas[..k], side)
  }

  /** The length of the row that starts with `k` items. */
  function RowLength(areas: seq<real>, side: real, k: nat): (n: nat)
    requires Positive(areas) && 0.0 < side && 0 < k <= |areas|
    ensures k <= n <= |areas|
    decreases |areas| - k
  {
    if Grows(areas, side, k) then RowLength(areas, side, k + 1) else k
  }

  lemma {:induction false} RowStopsAtTheFirstWorsening(areas: seq<real>, side: real, k: nat)
    requires Positive(areas) && 0.0 < side && 0 < k <= |areas|
    ensures !Grows(areas, side, RowLength(areas, side, k))
    ensures forall j :: k <= j < RowLength(areas, side, k) ==> Grows(areas, side, j)
    decreases |areas| - k
  {
    if Grows(areas, side, k) {
      RowStopsAtTheFirstWorsening(areas, side, k + 1);
    }
  }

  /** The areas are exactly enough for the rectangle. */
  predicate Fills(areas: seq<real>, r: Rect) {
    Positive(areas) && 0.0 < r.w && 0.0 < r.h && Sum(areas) == Times(r.w, r.h)
  }

  lemma RowHasRoom(areas: seq<real>, r: Rect, k: nat)
    requires Fills(areas, r) && 0 < k <= |areas|
    ensures Positive(areas[..k]) && Room(r, Sum(areas[..k]))
    ensures k < |areas| ==> Fills(areas[k..], Rest(r, Thickness(r, Sum(areas[..k]))))
  {
    PartsPositive(areas, k);
    SumPositive(areas[..k]);
    SumPositive(areas[k..]);
    if k < |areas| {
      ThicknessFits(r, Sum(areas[..k]));
      RestArea(r, Thickness(r, Sum(areas[..k])), Sum(areas[..k]));
    }
  }

  lemma RestArea(r: Rect, t: real, sum: real)
    requires Times(t, Side(r)) == sum
    ensures var rest := Rest(r, t); Times(rest.w, rest.h) == Times(r.w, r.h) - sum
  {
    var side, across := Side(r), Across(r);
    assert (across - t) * side == across * side - t * side;
  }

  function Layout(areas: seq<real>, r: Rect): seq<Rect>
    requires areas != [] ==> Fills(areas, r)
    decreases |areas|
  {
    if areas == [] then []
    else
      var k := RowLength(areas, Side(r), 1);
      RowHasRoom(areas, r, k);
      RowCells(areas[..k], r) + Layout(areas[k..], Rest(r, Thickness(r, Sum(areas[..k]))))
  }

  lemma ApartFromParts(a: Rect, b: Rect, r: Rect)
    requires Apart(a, r) && Inside(b, r)
    ensures Apart(a, b)
  {
  }

  lemma TilesJoin(a: seq<Rect>, b: seq<Rect>, r: Rect, rest: Rect)
    requires forall i :: 0 <= i < |a| ==> Inside(a[i], r) && Apart(a[i], rest)
    requires forall i, j :: 0 <= i < j < |a| ==> Apart(a[i], a[j])
    requires forall px, py :: Contains(r, px, py) ==> Covered(a, px, py) || Contains(rest, px, py)
    requires Tiles(b, rest) && Inside(rest, r)
    ensures Tiles(a + b, r)
  {
    var cells := a + b;
    forall i, j | 0 <= i < j < |cells| ensures Apart(cells[i], cells[j]) {
      if i < |a| <= j {
        ApartFromParts(cells[i], cells[j], rest);
      }
    }
    forall px, py | Contains(r, px, py) ensures Covered(cells, px, py) {
      if Covered(a, px, py) {
        var i :| 0 <= i < |a| && Contains(a[i], px, py);
        assert Contains(cells[i], px, py);
      } else {
        assert Contains(rest, px, py);
        var i :| 0 <= i < |b| && Contains(b[i], px, py);
        assert Contains(cells[|a| + i], px, py);
      }
    }
  }

  /** Cell `i` has area `i`. */
  predicate HasAreas(cells: seq<Rect>, areas: seq<real>) {
    |cells| == |areas|
    && forall i :: 0 <= i < |cells| ==>
       0.0 < cells[i].w && 0.0 < cells[i].h && Times(cells[i].w, cells[i].h) == areas[i]
  }

  lemma RowHasAreas(row: seq<real>, r: Rect)
    requires Positive(row) && row != [] && Room(r, Sum(row))
    ensures HasAreas(RowCells(row, r), row)
  {
    forall i | 0 <= i < |row|
      ensures var c := RowCells(row, r)[i]; 0.0 < c.w && 0.0 < c.h && Times(c.w, c.h) == row[i] {
      CellArea(row, r, i);
    }
  }

  lemma AreasJoin(a: seq<Rect>, b: seq<Rect>, areas: seq<real>, k: nat)
    requires k <= |areas| && HasAreas(a, areas[..k]) && HasAreas(b, areas[k..])
    ensures HasAreas(a + b, areas)
  {
    forall i | 0 <= i < |a + b|
      ensures var c := (a + b)[i]; 0.0 < c.w && 0.0 < c.h && Times(c.w, c.h) == areas[i] {
      if i < k { assert areas[..k][i] == areas[i]; } else { assert areas[k..][i - k] == areas[i]; }
    }
  }

  lemma LastRowTiles(row: seq<real>, r: Rect)
    requires Positive(row) && row != [] && Room(r, Sum(row)) && Sum(row) == Times(r.w, r.h)
    ensures Tiles(RowCells(row, r), r)
  {
    RowFillsStrip(row, r);
    ThicknessFits(r, Sum(row));
  }

  /** Every layout tiles its rectangle, each cell with its own area. */
  lemma {:induction false} LayoutTiles(areas: seq<real>, r: Rect)
    requires areas != [] && Fills(areas, r)
    ensures HasAreas(Layout(areas, r), areas) && Tiles(Layout(areas, r), r)
    decreases |areas|
  {
    var k := RowLength(areas, Side(r), 1);
    var row, rest := areas[..k], Rest(r, Thickness(r, Sum(areas[..k])));
    RowHasRoom(areas, r, k);
    RowHasAreas(row, r);
    if k == |areas| {
      assert row == areas && Layout(areas[k..], rest) == [];
      LastRowTiles(row, r);
      assert Layout(areas, r) == RowCells(row, r) + [] == RowCells(row, r);
    } else {
      LayoutTiles(areas[k..], rest);
      RowFillsStrip(row, r);
      ThicknessFits(r, Sum(row));
      TilesJoin(RowCells(row, r), Layout(areas[k..], rest), r, rest);
      AreasJoin(RowCells(row, r), Layout(areas[k..], rest), areas, k);
    }
  }

  // -------------------------------------------------------------- shares of values --

  /** An item's proportional share of the area. */
  function Share(value: real, total: real, width: real, height: real): real
    requires 0.0 < total
  {
    value / total * width * height
  }

  function Areas(values: seq<real>, width: real, height: real): seq<real>
    requires Positive(values)
  {
    SumPositive(values);
    seq(|values|, i requires 0 <= i < |values| => Share(values[i], Sum(values), width, height))
  }

  lemma ShareAdds(a: real, b: real, total: real, width: real, height: real)
    requires 0.0 < total
    ensures Share(a + b, total, width, height) == Share(a, total, width, height) + Share(b, total, width, height)
  {
    ExtentAdds(a, b, total, width);
    assert (Extent(a, total, width) + Extent(b, total, width)) * height
        == Extent(a, total, width) * height + Extent(b, total, width) * height;
  }

  lemma {:induction false} SharesSum(values: seq<real>, width: real, height: real, i: nat)
    requires Positive(values) && i <= |values| && values != []
    ensures 0.0 < Sum(values)
            && Sum(Areas(values, width, height)[..i]) == Share(Sum(values[..i]), Sum(values), width, height)
  {
    SumPositive(values);
    var areas := Areas(values, width, height);
    if i == 0 {
      assert 0.0 / Sum(values) == 0.0;
    } else {
      SharesSum(values, width, height, i - 1);
      assert areas[..i][..i - 1] == areas[..i - 1] && values[..i][..i - 1] == values[..i - 1];
      ShareAdds(Sum(values[..i - 1]), values[i - 1], Sum(values), width, height);
    }
  }

  lemma SharesFill(values: seq<real>, r: Rect)
    requires Positive(values) && values != [] && 0.0 < r.w && 0.0 < r.h
    ensures Fills(Areas(values, r.w, r.h), r)
  {
    var areas, total := Areas(values, r.w, r.h), Sum(values);
    SumPositive(values);
    SharesSum(values, r.w, r.h, |values|);
    assert values[..|values|] == values && areas[..|areas|] == areas;
    WholeShare(total, r.w, r.h);
    forall i | 0 <= i < |areas| ensures 0.0 < areas[i] {
      ExtentPositive(values[i], total, r.w);
      ProductPositive(Extent(values[i], total, r.w), r.h);
    }
  }

  lemma WholeShare(total: real, width: real, height: real)
    requires 0.0 < total
    ensures Share(total, total, width, height) == Times(width, height)
  {
    Undo(total, total);
    ProductOrdered(total / total, 1.0, total);
  }

  // -------------------------------------------------------------------- squarify --

  /** Take rows until nothing is left, each along the shorter side of what remains. */
  method Squarify(values: seq<real>, x: real, y: real, width: real, height: real) returns (out: seq<Rect>)
    requires Positive(values) && 0.0 < width && 0.0 < height
    ensures values == [] ==> out == []
    ensures values != [] ==> Fills(Areas(values, width, height), Rect(x, y, width, height))
                             && out == Layout(Areas(values, width, height), Rect(x, y, width, height))
  {
    out := [];
    if values == [] { return; }
    var r := Rect(x, y, width, height);
    SharesFill(values, r);
    var remaining := Areas(values, width, height);
    ghost var whole := Layout(remaining, r);
    while remaining != []
      invariant remaining != [] ==> Fills(remaining, r)
      invariant whole == out + Layout(remaining, r)
      decreases |remaining|
    {
      var n := FirstRow(remaining, Side(r));
      RowHasRoom(remaining, r, n);
      var cells := PlaceRow(remaining[..n], r);
      var thickness := Thickness(r, Sum(remaining[..n]));
      assert Layout(remaining, r) == cells + Layout(remaining[n..], Rest(r, thickness));
      out := out + cells;
      remaining, r := remaining[n..], Rest(r, thickness);
    }
  }

  /** How many of the remaining items make up the next row. */
  method FirstRow(remaining: seq<real>, side: real) returns (n: nat)
    requires Positive(remaining) && remaining != [] && 0.0 < side
    ensures n == RowLength(remaining, side, 1)
  {
    n := 1;
    while n < |remaining| && Worst(remaining[..n + 1], side) <= Worst(remaining[..n], side)
      invariant 1 <= n <= |remaining|
      invariant RowLength(remaining, side, n) == RowLength(remaining, side, 1)
    {
      assert Grows(remaining, side, n);
      n := n + 1;
    }
    assert !Grows(remaining, side, n);
  }

  method PlaceRow(row: seq<real>, r: Rect) returns (cells: seq<Rect>)
    requires Positive(row) && row != [] && Room(r, Sum(row))
    ensures cells == RowCells(row, r)
  {
    cells := [];
    var sum := Sum(row);
    var thickness, offset := Thickness(r, sum), if Vertical(r) then r.y else r.x;
    for i := 0 to |row|
      invariant offset == (if Vertical(r) then r.y else r.x) + Reach(row, sum, Side(r), i)
      invariant cells == RowCells(row, r)[..i]
    {
      var extent := Extent(row[i], sum, Side(r));
      var cell := if Vertical(r) then Rect(r.x, offset, thickness, extent) else Rect(offset, r.y, extent, thickness);
      assert RowCells(row, r)[i] == cell;
      assert RowCells(row, r)[..i + 1] == RowCells(row, r)[..i] + [RowCells(row, r)[i]];
      cells := cells + [cell];
      offset := offset + extent;
    }
  }

  // ----------------------------------------------------------------- main result --

  /** The treemap tiles exactly: every cell has its item's proportional share of the area and
      lies in the rectangle, no two overlap, and every point belongs to exactly one cell. */
  lemma SquarifiedLayoutTiles(values: seq<real>, r: Rect)
    requires Positive(values) && values != [] && 0.0 < r.w && 0.0 < r.h
    ensures 0.0 < Sum(values) && Fills(Areas(values, r.w, r.h), r)
    ensures var cells := Layout(Areas(values, r.w, r.h), r);
            && |cells| == |values| && Tiles(cells, r)
            && (forall i :: 0 <= i < |cells| ==>
                Times(cells[i].w, cells[i].h) == Share(values[i], Sum(values), r.w, r.h))
            && (forall px, py, i, j :: 0 <= i < j < |cells| && Contains(cells[i], px, py) ==>
                !Contains(cells[j], px, py))
  {
    SumPositive(values);
    SharesFill(values, r);
    LayoutTiles(Areas(values, r.w, r.h), r);
    var cells := Layout(Areas(values, r.w, r.h), r);
    forall px, py, i, j | 0 <= i < j < |cells| && Contains(cells[i], px, py) ensures !Contains(cells[j], px, py) {
      assert Apart(cells[i], cells[j]);
    }
  }
}
