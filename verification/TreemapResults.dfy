/**
 How the treemap is laid out: row by row from the corner, along the shorter side.
 */
module TreemapResults {
  import opened Products
  import opened Treemap

  /** The cells stand one upon the other along the left edge, from the corner to the end, and are equally wide. */
  ghost predicate AlongLeft(cells: seq<Rect>, r: Rect, width: real) {
    && cells != [] && cells[0].y == r.y && cells[|cells| - 1].y + cells[|cells| - 1].h == r.y + r.h
    && (forall i :: 0 <= i < |cells| ==> cells[i].x == r.x && cells[i].w == width)
    && (forall i :: 0 < i < |cells| ==> cells[i].y == cells[i - 1].y + cells[i - 1].h)
  }

  /** The cells stand side by side along the top edge, from the corner to the end, and are equally high. */
  ghost predicate AlongTop(cells: seq<Rect>, r: Rect, height: real) {
    && cells != [] && cells[0].x == r.x && cells[|cells| - 1].x + cells[|cells| - 1].w == r.x + r.w
    && (forall i :: 0 <= i < |cells| ==> cells[i].y == r.y && cells[i].h == height)
    && (forall i :: 0 < i < |cells| ==> cells[i].x == cells[i - 1].x + cells[i - 1].w)
  }

  predicate CellFrom(c: Rect, r: Rect, thickness: real, from: real, to: real) {
    c == Cell(r, thickness, from, to - from)
  }

  /** The cells reach from mark to mark along the side. */
  ghost predicate Marked(cells: seq<Rect>, r: Rect, thickness: real, marks: seq<real>) {
    && cells != [] && |marks| == |cells| + 1 && marks[0] == 0.0 && marks[|cells|] == Side(r)
    && forall i {:trigger cells[i]} :: 0 <= i < |cells| ==> CellFrom(cells[i], r, thickness, marks[i], marks[i + 1])
  }

  lemma MarkedStand(cells: seq<Rect>, r: Rect, thickness: real, marks: seq<real>)
    requires Marked(cells, r, thickness, marks)
    ensures r.w < r.h ==> AlongTop(cells, r, thickness)
    ensures r.w >= r.h ==> AlongLeft(cells, r, thickness)
  {
  }

  lemma RowIsMarked(row: seq<real>, r: Rect) returns (marks: seq<real>)
    requires Positive(row) && row != [] && Room(r, Sum(row))
    ensures Marked(RowCells(row, r), r, Thickness(r, Sum(row)), marks)
  {
    var sum, side := Sum(row), Side(r);
    marks := seq(|row| + 1, i requires 0 <= i <= |row| => Reach(row, sum, side, i));
    RowEnd(row, r);
    forall i | 0 <= i < |row|
      ensures CellFrom(RowCells(row, r)[i], r, Thickness(r, sum), marks[i], marks[i + 1]) {
      assert marks[i + 1] == marks[i] + Extent(row[i], sum, side);
    }
  }

  /** The rows are laid from the corner on, each along the shorter side of what is left, and the next
      ones fill the rest in the same way. */
  lemma RowsFollowTheShorterSide(areas: seq<real>, r: Rect) returns (n: nat, thickness: real, rest: Rect)
    requires areas != [] && Fills(areas, r)
    ensures 0 < n <= |areas| && n <= |Layout(areas, r)| && n == RowLength(areas, Side(r), 1)
    ensures r.w < r.h ==> AlongTop(Layout(areas, r)[..n], r, thickness)
                          && rest == Rect(r.x, r.y + thickness, r.w, r.h - thickness)
    ensures r.w >= r.h ==> AlongLeft(Layout(areas, r)[..n], r, thickness)
                           && rest == Rect(r.x + thickness, r.y, r.w - thickness, r.h)
    ensures n < |areas| ==> Fills(areas[n..], rest)
    ensures Layout(areas, r)[n..] == if n < |areas| then Layout(areas[n..], rest) else []
  {
    n := RowLength(areas, Side(r), 1);
    RowHasRoom(areas, r, n);
    thickness := Thickness(r, Sum(areas[..n]));
    var marks := RowIsMarked(areas[..n], r);
    MarkedStand(RowCells(areas[..n], r), r, thickness, marks);
    rest := Rest(r, thickness);
    var cells := RowCells(areas[..n], r);
    assert Layout(areas, r) == cells + Layout(areas[n..], rest);
    assert Layout(areas, r)[..n] == cells;
  }

  /** The longer side by the shorter one. */
  function Stretch(c: Rect): real
    requires 0.0 < c.w && 0.0 < c.h
  {
    if c.w < c.h then c.h / c.w else c.w / c.h
  }

  /** The cell that is furthest from a square is so by this much. */
  ghost predicate WorstOf(cells: seq<Rect>, worst: real) {
    && (forall c <- cells :: 0.0 < c.w && 0.0 < c.h && Stretch(c) <= worst)
    && (exists c <- cells :: 0.0 < c.w && 0.0 < c.h && Stretch(c) == worst)
  }

  lemma StretchIsAspect(c: Rect)
    requires 0.0 < c.w && 0.0 < c.h
    ensures Stretch(c) == Aspect(c)
  {
    AgainstOne(c.w, c.h);
    AgainstOne(c.h, c.w);
  }

  lemma AgainstOne(a: real, b: real)
    requires 0.0 < a && 0.0 < b
    ensures a <= b ==> a / b <= 1.0
    ensures b <= a ==> 1.0 <= a / b
  {
    Undo(a, b);
    ProductOrdered(1.0, a / b, b);
    ProductOrdered(a / b, 1.0, b);
  }

  lemma WorstIsWorst(row: seq<real>, r: Rect, worst: real)
    requires row != [] && Positive(row) && Room(r, Sum(row)) && WorstOf(RowCells(row, r), worst)
    ensures worst == Worst(row, Side(r))
  {
    var cells := RowCells(row, r);
    WorstIsTheWorstAspect(row, r);
    var i :| 0 <= i < |row| && 0.0 < cells[i].w && 0.0 < cells[i].h && Aspect(cells[i]) == Worst(row, Side(r));
    StretchIsAspect(cells[i]);
    assert cells[i] in cells;
    var c :| c in cells && 0.0 < c.w && 0.0 < c.h && Stretch(c) == worst;
    StretchIsAspect(c);
  }

  lemma PrefixWorst(areas: seq<real>, r: Rect, k: nat, worst: real)
    requires Fills(areas, r) && 0 < k <= |areas| && 0.0 < Sum(areas[..k])
    requires WorstOf(RowCells(areas[..k], r), worst)
    ensures Positive(areas[..k]) && worst == Worst(areas[..k], Side(r))
  {
    RowHasRoom(areas, r, k);
    WorstIsWorst(areas[..k], r, worst);
  }

  lemma RowRule(areas: seq<real>, side: real, k: nat)
    requires Positive(areas) && 0.0 < side && 0 < k < |areas| && Positive(areas[..k]) && Positive(areas[..k + 1])
    ensures k < RowLength(areas, side, 1) ==> Worst(areas[..k + 1], side) <= Worst(areas[..k], side)
    ensures k == RowLength(areas, side, 1) ==> Worst(areas[..k], side) < Worst(areas[..k + 1], side)
  {
    RowStopsAtTheFirstWorsening(areas, side, 1);
    assert Grows(areas, side, k) <==> Worst(areas[..k + 1], side) <= Worst(areas[..k], side);
  }

  /** A row goes on for as long as one more cell leaves its worst cell no further from a square, and
      ends where that would first be different. */
  lemma RowEndsWhereItGetsWorse(areas: seq<real>, r: Rect, k: nat, worst: real, next: real)
    requires Fills(areas, r) && 0 < k < |areas|
    requires 0.0 < Sum(areas[..k]) && WorstOf(RowCells(areas[..k], r), worst)
    requires 0.0 < Sum(areas[..k + 1]) && WorstOf(RowCells(areas[..k + 1], r), next)
    ensures k < RowLength(areas, Side(r), 1) ==> next <= worst
    ensures k == RowLength(areas, Side(r), 1) ==> worst < next
  {
    PrefixWorst(areas, r, k, worst);
    PrefixWorst(areas, r, k + 1, next);
    RowRule(areas, Side(r), k);
  }

  /** Every cell's area is to the rectangle's as its value is to the sum of all values. */
  lemma AreasAreProportional(values: seq<real>, r: Rect, i: nat)
    requires Positive(values) && i < |values|
    ensures Times(Areas(values, r.w, r.h)[i], Sum(values)) == Times(values[i], Times(r.w, r.h))
  {
    SumPositive(values);
    ProportionalShare(values[i], Sum(values), r.w, r.h);
  }

  lemma ProportionalShare(value: real, total: real, w: real, h: real)
    requires 0.0 < total
    ensures Times(Treemap.Share(value, total, w, h), total) == Times(value, Times(w, h))
  {
    Undo(value, total);
    PartOf(value / total, w, h, total, value);
  }

  lemma PartOf(part: real, w: real, h: real, total: real, value: real)
    requires part * total == value
    ensures part * w * h * total == value * (w * h)
  {
  }
}
