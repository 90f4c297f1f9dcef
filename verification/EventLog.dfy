/**
 The log as one client sees it: what a cursor cuts off, and which frames continue a view.
 */
module EventLog {
  import opened EventStream

  lemma WantedAppend(c: Config, log: seq<Event>, e: Event)
    ensures Wanted(c, log + [e]) == Wanted(c, log) + if Wants(c, e) then [e] else []
  {
    assert (log + [e])[..|log|] == log;
  }

  lemma {:induction false} WantedConcat(c: Config, a: seq<Event>, b: seq<Event>)
    ensures Wanted(c, a + b) == Wanted(c, a) + Wanted(c, b)
  {
    if b == [] {
      assert a + b == a;
    } else {
      WantedConcat(c, a, b[..|b| - 1]);
      assert (a + b)[..|a + b| - 1] == a + b[..|b| - 1];
    }
  }

  lemma WantedOne(c: Config, e: Event)
    ensures Wanted(c, [e]) == if Wants(c, e) then [e] else []
  {
    WantedAppend(c, [], e);
    assert [] + [e] == [e];
  }

  lemma {:induction false} WantedSubset(c: Config, events: seq<Event>, e: Event)
    requires e in Wanted(c, events)
    ensures e in events && Wants(c, e)
  {
    if !(Wants(c, events[|events| - 1]) && e == events[|events| - 1]) {
      WantedSubset(c, events[..|events| - 1], e);
    }
  }

  lemma {:induction false} WantedKeeps(c: Config, events: seq<Event>, e: Event)
    requires e in events && Wants(c, e)
    ensures e in Wanted(c, events)
  {
    if e != events[|events| - 1] {
      WantedKeeps(c, events[..|events| - 1], e);
    }
  }

  lemma LongerIncreasing(log: seq<Event>, e: Event)
    requires Increasing(log) && LastSeq(log) < e.number
    ensures Increasing(log + [e])
  {
  }

  lemma {:induction false} WantedStaysIncreasing(c: Config, log: seq<Event>)
    requires Increasing(log)
    ensures Increasing(Wanted(c, log)) && LastSeq(Wanted(c, log)) <= LastSeq(log)
  {
    if log != [] {
      var front, last := log[..|log| - 1], log[|log| - 1];
      WantedStaysIncreasing(c, front);
      if Wants(c, last) {
        LongerIncreasing(Wanted(c, front), last);
      } else {
        assert Wanted(c, log) == Wanted(c, front);
      }
    }
  }

  lemma WantedIncreasing(c: Config, log: seq<Event>)
    requires Increasing(log)
    ensures Increasing(Wanted(c, log))
    ensures forall e <- Wanted(c, log) :: e in log && Wants(c, e)
    ensures LastSeq(Wanted(c, log)) <= LastSeq(log)
    ensures forall e <- log :: Wants(c, e) ==> e in Wanted(c, log)
  {
    WantedStaysIncreasing(c, log);
    forall e <- Wanted(c, log) ensures e in log && Wants(c, e) { WantedSubset(c, log, e); }
    forall e <- log | Wants(c, e) ensures e in Wanted(c, log) { WantedKeeps(c, log, e); }
  }

  lemma {:induction false} BeyondAppend(a: seq<Event>, b: seq<Event>, cursor: nat)
    ensures Beyond(a + b, cursor) == Beyond(a, cursor) + Beyond(b, cursor)
  {
    if b == [] {
      assert a + b == a;
    } else {
      BeyondAppend(a, b[..|b| - 1], cursor);
      assert (a + b)[..|a + b| - 1] == a + b[..|b| - 1];
    }
  }

  lemma {:induction false} UpToAppend(a: seq<Event>, b: seq<Event>, cursor: nat)
    ensures UpTo(a + b, cursor) == UpTo(a, cursor) + UpTo(b, cursor)
  {
    if b == [] {
      assert a + b == a;
    } else {
      UpToAppend(a, b[..|b| - 1], cursor);
      assert (a + b)[..|a + b| - 1] == a + b[..|b| - 1];
    }
  }

  lemma {:induction false} UpToAll(events: seq<Event>, cursor: nat)
    requires forall i :: 0 <= i < |events| ==> events[i].number <= cursor
    ensures UpTo(events, cursor) == events
  {
    if events != [] {
      var front, last := events[..|events| - 1], events[|events| - 1];
      UpToAll(front, cursor);
      assert front + [last] == events;
    }
  }

  lemma {:induction false} UpToNone(events: seq<Event>, cursor: nat)
    requires forall i :: 0 <= i < |events| ==> cursor < events[i].number
    ensures UpTo(events, cursor) == []
  {
    if events != [] {
      UpToNone(events[..|events| - 1], cursor);
      assert events[|events| - 1].number > cursor;
    }
  }

  lemma {:induction false} BeyondAll(events: seq<Event>, cursor: nat)
    requires forall i :: 0 <= i < |events| ==> cursor < events[i].number
    ensures Beyond(events, cursor) == events
  {
    if events != [] {
      var front, last := events[..|events| - 1], events[|events| - 1];
      BeyondAll(front, cursor);
      assert front + [last] == events;
    }
  }

  lemma {:induction false} BeyondNone(events: seq<Event>, cursor: nat)
    requires forall i :: 0 <= i < |events| ==> events[i].number <= cursor
    ensures Beyond(events, cursor) == []
  {
    if events != [] {
      BeyondNone(events[..|events| - 1], cursor);
      assert events[|events| - 1].number <= cursor;
    }
  }

  lemma {:induction false} Boundary(rows: seq<Event>, cursor: nat) returns (p: nat)
    requires Increasing(rows)
    ensures p <= |rows|
    ensures (forall i :: 0 <= i < p ==> rows[i].number <= cursor)
            && (forall i :: p <= i < |rows| ==> cursor < rows[i].number)
  {
    if rows == [] || rows[|rows| - 1].number <= cursor {
      p := |rows|;
    } else {
      p := Boundary(rows[..|rows| - 1], cursor);
    }
  }

  /** A cursor cuts the rows in two. */
  lemma Cut(rows: seq<Event>, cursor: nat) returns (p: nat)
    requires Increasing(rows)
    ensures p <= |rows| && UpTo(rows, cursor) == rows[..p] && Beyond(rows, cursor) == rows[p..]
    ensures (forall i :: 0 <= i < p ==> rows[i].number <= cursor)
            && (forall i :: p <= i < |rows| ==> cursor < rows[i].number)
  {
    p := Boundary(rows, cursor);
    var low, high := rows[..p], rows[p..];
    assert rows == low + high;
    UpToAll(low, cursor);
    BeyondNone(low, cursor);
    UpToNone(high, cursor);
    BeyondAll(high, cursor);
    UpToAppend(low, high, cursor);
    BeyondAppend(low, high, cursor);
    assert low + [] == low && [] + high == high;
  }

  lemma BeyondOne(e: Event, cursor: nat)
    ensures Beyond([e], cursor) == if cursor < e.number then [e] else []
  {
    assert [e][..0] == [];
  }

  lemma CutAfter(rows: seq<Event>, q: nat)
    requires Increasing(rows) && 0 < q <= |rows|
    ensures UpTo(rows, rows[q - 1].number) == rows[..q] && Beyond(rows, rows[q - 1].number) == rows[q..]
  {
    var p := Cut(rows, rows[q - 1].number);
    BoundaryIsUnique(rows, rows[q - 1].number, p, q);
  }

  predicate IsBoundary(rows: seq<Event>, cursor: nat, p: nat) {
    && p <= |rows|
    && (forall i :: 0 <= i < p ==> rows[i].number <= cursor)
       && (forall i :: p <= i < |rows| ==> cursor < rows[i].number)
  }

  lemma BoundaryIsUnique(rows: seq<Event>, cursor: nat, p: nat, q: nat)
    requires IsBoundary(rows, cursor, p) && IsBoundary(rows, cursor, q)
    ensures p == q
  {
    assert p < |rows| ==> cursor < rows[p].number;
    assert q < |rows| ==> cursor < rows[q].number;
  }

  /** `next` are the rows from `p` up to `q`. */
  predicate IsSlice(rows: seq<Event>, p: nat, q: nat, next: seq<Event>) {
    p < q <= |rows| && next == rows[p..q]
  }

  lemma SliceIncreasing(rows: seq<Event>, p: nat, q: nat, next: seq<Event>)
    requires Increasing(rows) && IsSlice(rows, p, q, next)
    ensures Increasing(next)
  {
    forall i | 0 <= i < |next| ensures next[i] == rows[p + i] && 0 < next[i].number {
    }
    forall i, j | 0 <= i < j < |next| ensures next[i].number < next[j].number {
      assert next[i] == rows[p + i] && next[j] == rows[p + j];
    }
  }

  lemma SliceEnds(rows: seq<Event>, p: nat, q: nat, next: seq<Event>)
    requires IsSlice(rows, p, q, next)
    ensures next != [] && next[0] == rows[p] && LastSeq(next) == rows[q - 1].number
  {
    assert next[|next| - 1] == rows[q - 1];
  }

  lemma NoneIsBeyondTheLast(rows: seq<Event>, i: nat)
    requires Increasing(rows) && i < |rows|
    ensures rows[i].number <= LastSeq(rows)
  {
  }

  /** A slice of the rows, from the cut on, moves the cut behind itself. */
  lemma SliceMovesCut(rows: seq<Event>, p: nat, q: nat, next: seq<Event>)
    requires Increasing(rows) && IsSlice(rows, p, q, next)
    ensures UpTo(rows, rows[q - 1].number) == rows[..p] + next && Beyond(rows, rows[q - 1].number) == rows[q..]
  {
    CutAfter(rows, q);
    assert rows[..q] == rows[..p] + rows[p..q];
  }

  lemma Slices(rows: seq<Event>, p: nat, k: nat)
    requires p + k <= |rows|
    ensures rows[p..][..k] == rows[p..p + k] && rows[p..][k..] == rows[p + k..]
    ensures rows[..p + k] == rows[..p] + rows[p..p + k]
  {
  }

  lemma CutAdvances(rows: seq<Event>, p: nat, q: nat, next: seq<Event>)
    requires Increasing(rows) && IsSlice(rows, p, q, next)
    ensures next != [] && next[0] == rows[p] && LastSeq(next) <= LastSeq(rows)
    ensures UpTo(rows, LastSeq(next)) == rows[..p] + next && Beyond(rows, LastSeq(next)) == rows[q..]
  {
    SliceEnds(rows, p, q, next);
    NoneIsBeyondTheLast(rows, q - 1);
    SliceMovesCut(rows, p, q, next);
  }

  /** The cut moves with the cursor: reading the next `k` rows advances it by exactly them. */
  lemma Advance(rows: seq<Event>, cursor: nat, k: nat)
    requires Increasing(rows) && 0 < k <= |Beyond(rows, cursor)|
    ensures var next := Beyond(rows, cursor)[..k];
            && Increasing(next) && cursor < next[0].number
            && UpTo(rows, LastSeq(next)) == UpTo(rows, cursor) + next
            && Beyond(rows, LastSeq(next)) == Beyond(rows, cursor)[k..]
            && LastSeq(next) <= LastSeq(rows)
  {
    var p := Cut(rows, cursor);
    Slices(rows, p, k);
    SliceIncreasing(rows, p, p + k, rows[p..p + k]);
    CutAdvances(rows, p, p + k, rows[p..p + k]);
  }

  lemma NewerRow(rows: seq<Event>, e: Event, cursor: nat)
    requires cursor < e.number
    ensures UpTo(rows + [e], cursor) == UpTo(rows, cursor)
    ensures Beyond(rows + [e], cursor) == Beyond(rows, cursor) + [e]
  {
    assert (rows + [e])[..|rows|] == rows;
    assert UpTo(rows, cursor) + [] == UpTo(rows, cursor);
  }

  /** A row newer than the log changes nothing at or below an old cursor. */
  lemma Newer(c: Config, log: seq<Event>, e: Event, cursor: nat)
    requires cursor <= LastSeq(log) < e.number
    ensures Seen(c, log + [e], cursor) == Seen(c, log, cursor)
    ensures After(c, log + [e], cursor) == After(c, log, cursor) + if Wants(c, e) then [e] else []
  {
    WantedAppend(c, log, e);
    if Wants(c, e) {
      NewerRow(Wanted(c, log), e, cursor);
    } else {
      assert Wanted(c, log) + [] == Wanted(c, log);
      assert After(c, log, cursor) + [] == After(c, log, cursor);
    }
  }

  lemma UpToElements(rows: seq<Event>, cursor: nat)
    requires Increasing(rows)
    ensures forall e <- UpTo(rows, cursor) :: e in rows && e.number <= LastSeq(rows)
  {
    var p := Cut(rows, cursor);
  }

  /** Every frame that fits stays within the log. */
  lemma FitsWithin(rows: seq<Event>, cursor: nat, f: Frame, limit: nat)
    requires Increasing(rows) && LastSeq(rows) <= limit && cursor <= limit && Fits(rows, cursor, f)
    ensures NextCursor(cursor, f) <= limit
  {
    match f {
      case One(e) =>
        if e.number > 0 {
          UpToElements(rows, e.number);
          assert e in UpTo(rows, e.number);
        }
      case Batch(events) =>
        UpToElements(rows, LastSeq(events));
        assert events[|events| - 1] in UpTo(rows, LastSeq(events));
      case _ =>
    }
  }

  /** Frames on the wire depend only on the rows the log already had. */
  lemma {:induction false} ReadableGrows(rows: seq<Event>, rows': seq<Event>, cursor: nat, wire: seq<Frame>, limit: nat)
    requires Readable(rows, cursor, wire) && Increasing(rows) && LastSeq(rows) <= limit && cursor <= limit
    requires forall x: nat :: x <= limit ==> UpTo(rows', x) == UpTo(rows, x)
    ensures Readable(rows', cursor, wire)
    decreases |wire|
  {
    if wire != [] && !wire[0].DroppedMark? {
      FitsWithin(rows, cursor, wire[0], limit);
      ReadableGrows(rows, rows', NextCursor(cursor, wire[0]), wire[1..], limit);
    }
  }

  /** A frame that fits the end of the wire can be sent, and any frame after a drop mark. */
  lemma {:induction false} ReadableAppend(rows: seq<Event>, cursor: nat, wire: seq<Frame>, f: Frame)
    requires Readable(rows, cursor, wire)
    requires f.DroppedMark? || Fits(rows, EndCursor(cursor, wire), f) || exists g <- wire :: g.DroppedMark?
    ensures Readable(rows, cursor, wire + [f])
    ensures EndCursor(cursor, wire + [f]) == NextCursor(EndCursor(cursor, wire), f)
    decreases |wire|
  {
    if wire == [] {
      assert (wire + [f])[1..] == [];
    } else {
      assert (wire + [f])[1..] == wire[1..] + [f];
      if wire[0].DroppedMark? {
        EndAppend(NextCursor(cursor, wire[0]), wire[1..], f);
      } else {
        ReadableAppend(rows, NextCursor(cursor, wire[0]), wire[1..], f);
      }
    }
  }

  lemma {:induction false} EndAppend(cursor: nat, wire: seq<Frame>, f: Frame)
    ensures EndCursor(cursor, wire + [f]) == NextCursor(EndCursor(cursor, wire), f)
    decreases |wire|
  {
    if wire == [] {
      assert (wire + [f])[1..] == [];
    } else {
      assert (wire + [f])[1..] == wire[1..] + [f];
      EndAppend(NextCursor(cursor, wire[0]), wire[1..], f);
    }
  }

  lemma {:induction false} BeyondBeyond(events: seq<Event>, cursor: nat, later: nat)
    requires cursor <= later
    ensures Beyond(Beyond(events, cursor), later) == Beyond(events, later)
  {
    if events != [] {
      var front, last := events[..|events| - 1], events[|events| - 1];
      BeyondBeyond(front, cursor, later);
      BeyondAppend(Beyond(front, cursor), Beyond([last], cursor), later);
      BeyondOne(last, cursor);
      BeyondOne(last, later);
    }
  }
}
