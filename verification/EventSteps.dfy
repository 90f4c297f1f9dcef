/**
 Every step of the event stream keeps its invariant.
 */
module EventSteps {
  import opened EventLog
  import opened EventStream

  /** What is on the wire does not depend on a newer row. */
  lemma NewerKeepsReadable(c: Config, log: seq<Event>, e: Event, cursor: nat, wire: seq<Frame>)
    requires Increasing(log) && LastSeq(log) < e.number && cursor <= LastSeq(log)
    requires Readable(Wanted(c, log), cursor, wire)
    ensures Readable(Wanted(c, log + [e]), cursor, wire)
  {
    WantedStaysIncreasing(c, log);
    forall x: nat | x <= LastSeq(log) ensures UpTo(Wanted(c, log + [e]), x) == UpTo(Wanted(c, log), x) {
      Newer(c, log, e, x);
    }
    ReadableGrows(Wanted(c, log), Wanted(c, log + [e]), cursor, wire, LastSeq(log));
  }

  /** Rows that were in the log are in the longer one, and so is its last row. */
  lemma StillRecorded(events: seq<Event>, log: seq<Event>, e: Event)
    requires Recorded(events, log)
    ensures Recorded(events, log + [e]) && Recorded(events + [e], log + [e])
  {
  }

  lemma NewerKeepsView(c: Config, log: seq<Event>, e: Event, client: Client, wire: seq<Frame>)
    requires Increasing(log) && LastSeq(log) < e.number && InView(c, log, client, wire)
    ensures InView(c, log + [e], client, wire)
  {
    Newer(c, log, e, client.cursor);
    if client.open {
      NewerKeepsReadable(c, log, e, client.cursor, wire);
    }
  }

  lemma OnceMore(hops: seq<Event>, unfanned: seq<Event>, log: seq<Event>, e: Event)
    requires Once(hops, unfanned) && Recorded(hops, log) && Recorded(unfanned, log)
    requires e.number > 0 ==> e !in log
    ensures Once(hops, unfanned + [e])
  {
    assert multiset(unfanned + [e]) == multiset(unfanned) + multiset{e};
    assert e.number > 0 ==> e !in hops && e !in unfanned;
  }

  lemma NotInShorterLog(log: seq<Event>, e: Event)
    requires Increasing(log) && LastSeq(log) < e.number
    ensures e !in log
  {
    forall i | 0 <= i < |log| ensures log[i] != e {
      assert log[i].number <= log[|log| - 1].number;
    }
  }

  lemma InsertKeepsBase(c: Config, s: State, e: Event)
    requires Base(c, s) && LastSeq(s.log) < e.number
    ensures Base(c, Apply(c, s, Insert(e)))
  {
    LongerIncreasing(s.log, e);
    NotInShorterLog(s.log, e);
    OnceMore(s.hops, s.unfanned, s.log, e);
    StillRecorded(s.unfanned, s.log, e);
    StillRecorded(s.hops, s.log, e);
    StillRecorded(s.conn.queue, s.log, e);
    NewerKeepsView(c, s.log, e, s.client, s.conn.wire);
  }

  // ------------------------------------------------------------------ the backlog --

  ghost predicate Fine(b: Backlog) {
    Whole(b) || Saved(b)
  }

  /** A drop has been counted, and the next event to go out will be followed by its report. */
  predicate Reporting(b: Backlog) {
    b.dropped > 0 && (b.sending || !AllStale(b.queue, b.cursor))
  }

  ghost predicate Oldest(b: Backlog, x: Event) {
    x in b.way && forall e <- b.way :: x.number <= e.number
  }

  /** What holds of every backlog: due rows ascend, and what is on its way is due. */
  ghost predicate Sorted(b: Backlog) {
    Increasing(b.due) && forall e <- b.way :: e in b.due && b.cursor < e.number
  }

  lemma SplitsMore(due: seq<Event>, queued: seq<Event>, way: set<Event>, e: Event)
    requires Splits(due, queued, way)
    ensures Splits(due + [e], queued, way + {e})
  {
    assert (due + [e])[|queued|..] == due[|queued|..] + [e];
  }

  lemma InsertedIsFine(b: Backlog, e: Event)
    requires Fine(b)
    ensures Fine(b.(due := b.due + [e], way := b.way + {e}))
  {
    var t := b.(due := b.due + [e], way := b.way + {e});
    if Whole(b) {
      SplitsMore(b.due, Beyond(b.queue, b.cursor), b.way, e);
    } else if i: nat :| NextOut(b, i) {
      assert NextOut(t, i);
    }
  }

  /** The oldest row on its way is the one the queue needs next. */
  lemma OldestIsNext(due: seq<Event>, queued: seq<Event>, way: set<Event>, x: Event)
    requires Increasing(due) && Splits(due, queued, way) && x in way && forall e <- way :: x.number <= e.number
    ensures Splits(due, queued + [x], way - {x})
  {
    var n := |queued|;
    var k :| 0 <= k < |due[n..]| && due[n..][k] == x;
    assert due[n] in due[n..] && due[n + k] == x;
    assert k == 0;
    assert due[n..] == [x] + due[n + 1..];
    assert x !in due[n + 1..];
  }

  /** The oldest row on its way is the first one due, if that is on its way. */
  lemma OldestIsFirst(b: Backlog, x: Event)
    requires Sorted(b) && Oldest(b, x) && b.due != [] && b.due[0] in b.way
    ensures x == b.due[0]
  {
    var k :| 0 <= k < |b.due| && b.due[k] == x;
  }

  lemma QueuedBeyond(queue: seq<Event>, x: Event, cursor: nat)
    ensures Beyond(queue + [x], cursor)
         == if cursor < x.number then Beyond(queue, cursor) + [x] else Beyond(queue, cursor)
  {
    assert (queue + [x])[..|queue|] == queue;
    if x.number <= cursor {
      assert Beyond(queue, cursor) + [] == Beyond(queue, cursor);
    }
  }

  lemma QueuedKeepsNext(b: Backlog, x: Event, way: set<Event>, i: nat)
    requires NextOut(b, i)
    ensures NextOut(b.(queue := b.queue + [x], way := way), i)
  {
    assert (b.queue + [x])[..i] == b.queue[..i];
  }

  lemma QueuedIsNext(b: Backlog, x: Event, way: set<Event>)
    requires AllStale(b.queue, b.cursor) && Fresh(x, b.cursor) && (x.number > 0 ==> b.due != [] && b.due[0] == x)
    ensures NextOut(b.(queue := b.queue + [x], way := way), |b.queue|)
  {
    assert (b.queue + [x])[..|b.queue|] == b.queue;
  }

  /** While nothing is lost, the first event to be sent is the row the client needs next, or a line. */
  lemma WholeFindsNextOut(b: Backlog)
    requires Whole(b) && !AllStale(b.queue, b.cursor)
    ensures exists i: nat :: NextOut(b, i)
  {
    var i := FirstFresh(b.queue, b.cursor);
    if b.queue[i].number > 0 {
      BeyondFromFresh(b.queue, b.cursor, i);
    }
    assert NextOut(b, i);
  }

  /** The first event of the queue that will be sent. */
  lemma {:induction false} FirstFresh(queue: seq<Event>, cursor: nat) returns (i: nat)
    requires !AllStale(queue, cursor)
    ensures i < |queue| && Fresh(queue[i], cursor) && AllStale(queue[..i], cursor)
  {
    if Fresh(queue[0], cursor) {
      i := 0;
    } else {
      assert queue == [queue[0]] + queue[1..];
      i := FirstFresh(queue[1..], cursor);
      assert queue[..i + 1] == [queue[0]] + queue[1..][..i];
      i := i + 1;
    }
  }

  lemma BeyondFromFresh(queue: seq<Event>, cursor: nat, i: nat)
    requires i < |queue| && AllStale(queue[..i], cursor) && cursor < queue[i].number
    ensures Beyond(queue, cursor) != [] && Beyond(queue, cursor)[0] == queue[i]
  {
    assert queue == queue[..i] + queue[i..];
    BeyondAppend(queue[..i], queue[i..], cursor);
    NothingBeyond(queue[..i], cursor);
    Popped(queue[i..], cursor);
  }

  lemma NothingBeyond(queue: seq<Event>, cursor: nat)
    requires AllStale(queue, cursor)
    ensures Beyond(queue, cursor) == []
  {
    forall i | 0 <= i < |queue| ensures queue[i].number <= cursor { assert queue[i] in queue; }
    BeyondNone(queue, cursor);
  }

  lemma NothingGoesOut(b: Backlog)
    requires AllStale(b.queue, b.cursor)
    ensures forall i: nat :: !NextOut(b, i)
  {
  }

  /** A drop whose report is coming comes before anything else can be lost. */
  lemma ReportedIsSaved(b: Backlog)
    requires Fine(b) && Reporting(b)
    ensures b.sending || exists i: nat :: NextOut(b, i)
  {
    if !b.sending && Whole(b) {
      WholeFindsNextOut(b);
    }
  }

  lemma ReportedQueues(b: Backlog, x: Event, way: set<Event>)
    requires Fine(b) && Reporting(b)
    ensures Saved(b.(queue := b.queue + [x], way := way))
  {
    ReportedIsSaved(b);
    if !b.sending {
      var i: nat :| NextOut(b, i);
      QueuedKeepsNext(b, x, way, i);
    }
  }

  lemma ReportedOverflows(b: Backlog, way: set<Event>)
    requires Fine(b) && (b.sending || !AllStale(b.queue, b.cursor))
    ensures Saved(b.(dropped := b.dropped + 1, way := way))
  {
    var t := b.(dropped := b.dropped + 1, way := way);
    if !b.sending {
      if Whole(b) {
        WholeFindsNextOut(b);
      }
      var i: nat :| NextOut(b, i);
      assert NextOut(t, i);
    }
  }

  /** A line or a stale row changes nothing that is due. */
  lemma StaleQueues(b: Backlog, x: Event)
    requires Fine(b) && !Reporting(b) && x.number <= b.cursor
    ensures Fine(b.(queue := b.queue + [x]))
  {
    var t := b.(queue := b.queue + [x]);
    if Whole(b) {
      QueuedBeyond(b.queue, x, b.cursor);
    } else {
      NothingGoesOut(b);
      if x.number == 0 {
        QueuedIsNext(b, x, b.way);
        assert t == b.(queue := b.queue + [x], way := b.way);
      } else {
        assert NextIsComing(t);
      }
    }
  }

  lemma StaleOverflows(b: Backlog)
    requires Fine(b)
    ensures Fine(b.(dropped := b.dropped + 1))
  {
    var t := b.(dropped := b.dropped + 1);
    if !Whole(b) && !b.sending && !NextIsComing(b) {
      var i: nat :| NextOut(b, i);
      assert NextOut(t, i);
    }
  }

  /** The oldest row on its way can be queued. */
  lemma OldestQueues(b: Backlog, x: Event)
    requires Fine(b) && !Reporting(b) && Sorted(b) && Oldest(b, x)
    ensures Fine(b.(queue := b.queue + [x], way := b.way - {x}))
  {
    if Whole(b) {
      OldestIsNext(b.due, Beyond(b.queue, b.cursor), b.way, x);
      QueuedBeyond(b.queue, x, b.cursor);
    } else {
      NothingGoesOut(b);
      OldestIsFirst(b, x);
      QueuedIsNext(b, x, b.way - {x});
    }
  }

  /** An overflow that is not blind leaves an event to be sent before the loss matters. */
  lemma OverflowIsSaved(b: Backlog, x: Event, older: Event)
    requires Fine(b) && Sorted(b) && !b.sending && AllStale(b.queue, b.cursor)
    requires older in b.way && older.number < x.number
    ensures Saved(b.(dropped := b.dropped + 1, way := b.way - {x}))
  {
    var k :| 0 <= k < |b.due| && b.due[k] == older;
    assert b.due[0].number <= older.number;
    NothingGoesOut(b);
    if Whole(b) {
      NothingBeyond(b.queue, b.cursor);
      assert b.due[0..] == b.due;
    }
    assert NextIsComing(b.(dropped := b.dropped + 1, way := b.way - {x}));
  }

  // ----------------------------------------------------------- what is on the way --

  lemma {:induction false} BeyondIs(events: seq<Event>, cursor: nat, e: Event)
    ensures e in Beyond(events, cursor) <==> e in events && cursor < e.number
  {
    if events != [] {
      BeyondIs(events[..|events| - 1], cursor, e);
      assert events == events[..|events| - 1] + [events[|events| - 1]];
    }
  }

  /** What is due are the rows of the log that are. */
  lemma DueAreRows(c: Config, log: seq<Event>, cursor: nat, e: Event)
    ensures e in After(c, log, cursor) <==> e in log && Due(c, e, cursor)
  {
    BeyondIs(Wanted(c, log), cursor, e);
    if e in Wanted(c, log) { WantedSubset(c, log, e); }
    if e in log && Wants(c, e) { WantedKeeps(c, log, e); }
  }

  lemma DueIncreasing(c: Config, log: seq<Event>, cursor: nat)
    requires Increasing(log)
    ensures Increasing(After(c, log, cursor))
  {
    WantedStaysIncreasing(c, log);
    var p := Cut(Wanted(c, log), cursor);
  }

  lemma BacklogIsSorted(c: Config, s: State)
    requires Increasing(s.log) && Recorded(s.hops, s.log) && Recorded(s.unfanned, s.log)
    ensures Sorted(BacklogOf(c, s))
  {
    DueIncreasing(c, s.log, Committed(s.conn));
    forall e <- OnTheWay(c, s) ensures e in After(c, s.log, Committed(s.conn)) {
      DueAreRows(c, s.log, Committed(s.conn), e);
    }
  }

  lemma WayAppend(c: Config, s: State, t: State, e: Event)
    requires t.conn == s.conn && t.hops == s.hops && t.unfanned == s.unfanned + [e]
    ensures OnTheWay(c, t) == OnTheWay(c, s) + if Due(c, e, Committed(s.conn)) then {e} else {}
  {
  }

  lemma InsertedBacklog(c: Config, s: State, e: Event)
    requires Committed(s.conn) <= LastSeq(s.log) < e.number
    ensures var b := BacklogOf(c, s);
            BacklogOf(c, Apply(c, s, Insert(e)))
            == if Wants(c, e) then b.(due := b.due + [e], way := b.way + {e}) else b
  {
    var t := Apply(c, s, Insert(e));
    WayAppend(c, s, t, e);
    Newer(c, s.log, e, Committed(s.conn));
    if !Wants(c, e) {
      assert After(c, t.log, Committed(s.conn)) == After(c, s.log, Committed(s.conn));
      assert OnTheWay(c, t) == OnTheWay(c, s);
    }
  }

  lemma InsertKeepsInv(c: Config, s: State, e: Event)
    requires Inv(c, s) && LastSeq(s.log) < e.number
    ensures Inv(c, Apply(c, s, Insert(e)))
  {
    InsertKeepsBase(c, s, e);
    if !Told(s) {
      InsertKeepsFlow(c, s, e);
    }
  }

  lemma InsertKeepsFlow(c: Config, s: State, e: Event)
    requires Flow(c, s) && LastSeq(s.log) < e.number
    ensures Flow(c, Apply(c, s, Insert(e)))
  {
    InsertedBacklog(c, s, e);
    if PastReplay(c, s.conn) && Wants(c, e) {
      InsertedIsFine(BacklogOf(c, s), e);
    }
  }

  lemma PublishKeepsInv(c: Config, s: State, e: Event)
    requires Inv(c, s) && e.number == 0
    ensures Inv(c, Apply(c, s, Publish(e)))
  {
    OnceMore(s.hops, s.unfanned, s.log, e);
    WayAppend(c, s, Apply(c, s, Publish(e)), e);
    assert BacklogOf(c, Apply(c, s, Publish(e))) == BacklogOf(c, s);
  }

  /** An event taken out of a list. */
  lemma TakenOut(events: seq<Event>, i: nat)
    requires i < |events|
    ensures multiset(events) == multiset(Without(events, i)) + multiset{events[i]}
    ensures forall e :: e in events <==> e == events[i] || e in Without(events, i)
  {
    assert events == events[..i] + [events[i]] + events[i + 1..];
  }

  lemma MovedStaysOnce(hops: seq<Event>, unfanned: seq<Event>, i: nat, moved: seq<Event>)
    requires i < |unfanned| && Once(hops, unfanned) && (moved == [unfanned[i]] || moved == [])
    ensures Once(hops + moved, Without(unfanned, i))
  {
    TakenOut(unfanned, i);
    assert multiset(hops + moved) == multiset(hops) + multiset(moved);
  }

  lemma LessStaysOnce(hops: seq<Event>, unfanned: seq<Event>, i: nat)
    requires i < |hops| && Once(hops, unfanned)
    ensures Once(Without(hops, i), unfanned)
    ensures hops[i].number > 0 ==> hops[i] !in Without(hops, i) && hops[i] !in unfanned
  {
    TakenOut(hops, i);
    var x := hops[i];
    assert x.number > 0 ==> multiset(Without(hops, i))[x] == 0 && multiset(unfanned)[x] == 0;
  }

  lemma FanOutKeepsBase(c: Config, s: State, i: nat)
    requires Base(c, s) && i < |s.unfanned|
    ensures Base(c, Apply(c, s, FanOut(i))) && Told(Apply(c, s, FanOut(i))) == Told(s)
  {
    TakenOut(s.unfanned, i);
    var x := if s.conn.stage != Closed && Wants(c, s.unfanned[i]) then [s.unfanned[i]] else [];
    assert Apply(c, s, FanOut(i)).hops == s.hops + x;
    MovedStaysOnce(s.hops, s.unfanned, i, x);
  }

  /** In whatever order the events are fanned out, the same rows are on their way. */
  lemma FannedOut(c: Config, s: State, i: nat)
    requires i < |s.unfanned| && s.conn.stage != Closed
    ensures OnTheWay(c, Apply(c, s, FanOut(i))) == OnTheWay(c, s)
  {
    var t := Apply(c, s, FanOut(i));
    TakenOut(s.unfanned, i);
    forall e | Due(c, e, Committed(s.conn)) ensures e in t.hops + t.unfanned <==> e in s.hops + s.unfanned {
    }
  }

  lemma FanOutKeepsInv(c: Config, s: State, i: nat)
    requires Inv(c, s) && i < |s.unfanned|
    ensures Inv(c, Apply(c, s, FanOut(i)))
  {
    FanOutKeepsBase(c, s, i);
    if !Told(s) && PastReplay(c, s.conn) {
      FannedOut(c, s, i);
      assert BacklogOf(c, Apply(c, s, FanOut(i))) == BacklogOf(c, s);
    }
  }

  // ----------------------------------------------------------------------- offers --

  lemma OfferKeepsBase(c: Config, s: State, i: nat)
    requires Base(c, s) && i < |s.hops|
    ensures Base(c, Apply(c, s, Offer(i))) && Told(Apply(c, s, Offer(i))) == Told(s)
  {
    LessStaysOnce(s.hops, s.unfanned, i);
    LessStaysRecorded(c, s.hops, i, s.log);
    OneMoreRecorded(c, s.conn.queue, s.hops[i], s.log) by {
      assert s.hops[i] in s.hops;
    }
  }

  lemma LessStaysRecorded(c: Config, events: seq<Event>, i: nat, log: seq<Event>)
    requires i < |events| && Recorded(events, log) && AllWanted(c, events)
    ensures Recorded(Without(events, i), log) && AllWanted(c, Without(events, i))
  {
    TakenOut(events, i);
  }

  lemma OneMoreRecorded(c: Config, events: seq<Event>, e: Event, log: seq<Event>)
    requires Recorded(events, log) && AllWanted(c, events) && Wants(c, e) && (e.number > 0 ==> e in log)
    ensures Recorded(events + [e], log) && AllWanted(c, events + [e])
  {
  }

  /** An offer takes its row off the way, whatever becomes of it. */
  lemma OffTheWay(c: Config, s: State, i: nat)
    requires i < |s.hops| && Once(s.hops, s.unfanned)
    ensures OnTheWay(c, Apply(c, s, Offer(i))) == OnTheWay(c, s) - {s.hops[i]}
  {
    TakenOut(s.hops, i);
    LessStaysOnce(s.hops, s.unfanned, i);
  }

  lemma OfferedBacklog(c: Config, s: State, i: nat)
    requires i < |s.hops| && Once(s.hops, s.unfanned)
    ensures var b, x := BacklogOf(c, s), s.hops[i];
            BacklogOf(c, Apply(c, s, Offer(i)))
            == if |b.queue| < c.capacity then b.(queue := b.queue + [x], way := b.way - {x})
               else b.(dropped := b.dropped + 1, way := b.way - {x})
  {
    OffTheWay(c, s, i);
  }

  lemma StaleOffer(b: Backlog, x: Event, room: bool)
    requires Fine(b) && !Reporting(b) && Sorted(b) && x.number <= b.cursor
    ensures Fine(if room then b.(queue := b.queue + [x], way := b.way - {x})
                 else b.(dropped := b.dropped + 1, way := b.way - {x}))
  {
    assert b.way - {x} == b.way;
    assert b.(queue := b.queue + [x], way := b.way) == b.(queue := b.queue + [x]);
    assert b.(dropped := b.dropped + 1, way := b.way) == b.(dropped := b.dropped + 1);
    StaleQueues(b, x);
    StaleOverflows(b);
  }

  /** The offers of a row that is due which are neither blind nor overtake an older one. */
  ghost predicate InTurn(b: Backlog, x: Event, room: bool) {
    if room then Oldest(b, x) else (b.sending || !AllStale(b.queue, b.cursor) || !Oldest(b, x))
  }

  lemma DueOffer(b: Backlog, x: Event, room: bool)
    requires Fine(b) && !Reporting(b) && Sorted(b) && x in b.way && InTurn(b, x, room)
    ensures Fine(if room then b.(queue := b.queue + [x], way := b.way - {x})
                 else b.(dropped := b.dropped + 1, way := b.way - {x}))
  {
    if room {
      OldestQueues(b, x);
    } else if b.sending || !AllStale(b.queue, b.cursor) {
      ReportedOverflows(b, b.way - {x});
    } else {
      var older :| older in b.way && older.number < x.number;
      OverflowIsSaved(b, x, older);
    }
  }

  lemma OfferKeepsFine(c: Config, s: State, i: nat)
    requires Base(c, s) && i < |s.hops| && Alone(c, s) && !Hazard(c, s, Offer(i)) && Fine(BacklogOf(c, s))
    ensures Fine(BacklogOf(c, Apply(c, s, Offer(i))))
  {
    var b, x, room := BacklogOf(c, s), s.hops[i], |s.conn.queue| < c.capacity;
    assert x in s.hops;
    OfferedBacklog(c, s, i);
    BacklogIsSorted(c, s);
    if Reporting(b) {
      ReportedQueues(b, x, b.way - {x});
      ReportedOverflows(b, b.way - {x});
    } else if x.number <= b.cursor {
      StaleOffer(b, x, room);
    } else {
      OfferIsInTurn(c, s, i);
      DueOffer(b, x, room);
    }
  }

  lemma OfferIsInTurn(c: Config, s: State, i: nat)
    requires i < |s.hops| && Alone(c, s) && !Hazard(c, s, Offer(i)) && !Reporting(BacklogOf(c, s))
    requires Due(c, s.hops[i], Committed(s.conn))
    ensures s.hops[i] in OnTheWay(c, s) && InTurn(BacklogOf(c, s), s.hops[i], |s.conn.queue| < c.capacity)
  {
    assert s.hops[i] in s.hops + s.unfanned;
  }

  lemma OfferKeepsFlow(c: Config, s: State, i: nat)
    requires Flow(c, s) && i < |s.hops|
    requires PastReplay(c, s.conn) ==> Fine(BacklogOf(c, Apply(c, s, Offer(i))))
    ensures Flow(c, Apply(c, s, Offer(i)))
  {
  }

  lemma OfferKeepsInv(c: Config, s: State, i: nat)
    requires Inv(c, s) && i < |s.hops| && !Hazard(c, s, Offer(i))
    ensures Inv(c, Apply(c, s, Offer(i)))
  {
    OfferKeepsBase(c, s, i);
    if !Told(s) {
      if PastReplay(c, s.conn) {
        OfferKeepsFine(c, s, i);
      }
      OfferKeepsFlow(c, s, i);
    }
  }

  // ------------------------------------------------------------------- the replay --

  lemma StaleAtTheEnd(c: Config, log: seq<Event>, e: Event, cursor: nat)
    requires After(c, log, cursor) == [] && Wants(c, e) && (e.number > 0 ==> e in log)
    ensures e.number <= cursor
  {
    DueAreRows(c, log, cursor, e);
  }

  /** A replay that has reached the end of the log has caught up with the queue and with what is on its way. */
  lemma ReplayedEverything(c: Config, s: State)
    requires Base(c, s) && After(c, s.log, Committed(s.conn)) == []
    ensures Beyond(s.conn.queue, Committed(s.conn)) == [] && OnTheWay(c, s) == {}
  {
    forall e <- s.conn.queue ensures e.number <= Committed(s.conn) {
      StaleAtTheEnd(c, s.log, e, Committed(s.conn));
    }
    BeyondNone(s.conn.queue, Committed(s.conn));
    forall e <- s.hops + s.unfanned ensures !Due(c, e, Committed(s.conn)) {
      if Wants(c, e) { StaleAtTheEnd(c, s.log, e, Committed(s.conn)); }
    }
  }

  /** One non-empty chunk of what follows the cursor; a short one is the last. */
  lemma ChunkFollows(rows: seq<Event>, cursor: nat, limit: nat, batch: seq<Event>)
    requires Increasing(rows) && batch != []
    requires batch == if |Beyond(rows, cursor)| <= limit then Beyond(rows, cursor) else Beyond(rows, cursor)[..limit]
    ensures Fits(rows, cursor, Batch(batch)) && LastSeq(batch) <= LastSeq(rows)
    ensures |batch| < limit ==> Beyond(rows, LastSeq(batch)) == []
  {
    var due := Beyond(rows, cursor);
    assert batch == due[..|batch|];
    Advance(rows, cursor, |batch|);
  }

  /** The frame of one replay round fits, and ends at the new committed cursor. */
  lemma ChunkFits(c: Config, log: seq<Event>, k: Conn)
    requires Sized(c) && Increasing(log) && k.stage == Reading && k.delivered <= LastSeq(log)
    ensures var t := ReadChunk(c, k, log);
            var f := if t.stage == SendingMark then LiveMark(k.delivered)
                else Batch(Since(c, log, k.delivered, c.chunk));
            && t.wire == k.wire + [f] && Fits(Wanted(c, log), k.delivered, f)
            && NextCursor(k.delivered, f) == Committed(t) <= LastSeq(log)
            && (t.stage.SendingBatch? ==> t.stage.batch != [])
            && (PastReplay(c, t) ==> After(c, log, Committed(t)) == [])
  {
    WantedStaysIncreasing(c, log);
    var batch := Since(c, log, k.delivered, c.chunk);
    if batch != [] {
      ChunkFollows(Wanted(c, log), k.delivered, c.chunk, batch);
      assert Committed(ReadChunk(c, k, log)) == LastSeq(batch);
    } else {
      assert After(c, log, k.delivered) == [];
    }
  }

  /** A frame sent after the ones on the wire. */
  lemma SentKeepsView(c: Config, log: seq<Event>, client: Client, wire: seq<Frame>, f: Frame)
    requires InView(c, log, client, wire)
    requires client.open && (forall g <- wire :: !g.DroppedMark?) ==>
               f.DroppedMark? || Fits(Wanted(c, log), EndCursor(client.cursor, wire), f)
    ensures InView(c, log, client, wire + [f])
    ensures EndCursor(client.cursor, wire + [f]) == NextCursor(EndCursor(client.cursor, wire), f)
    ensures (exists g <- wire + [f] :: g.DroppedMark?) <==> f.DroppedMark? || exists g <- wire :: g.DroppedMark?
  {
    EndAppend(client.cursor, wire, f);
    if client.open {
      ReadableAppend(Wanted(c, log), client.cursor, wire, f);
    }
    assert f in wire + [f];
    if g :| g in wire && g.DroppedMark? { assert g in wire + [f]; }
  }

  lemma ReadKeepsBase(c: Config, s: State)
    requires Sized(c) && Base(c, s) && s.conn.stage == Reading
    requires !Told(s) ==> EndCursor(s.client.cursor, s.conn.wire) == s.conn.delivered <= LastSeq(s.log)
    ensures var t := Apply(c, s, Read);
            && Base(c, t) && Told(t) == Told(s)
            && (!Told(s) ==> EndCursor(t.client.cursor, t.conn.wire) == Committed(t.conn) <= LastSeq(s.log))
  {
    var t := Apply(c, s, Read);
    var f := t.conn.wire[|s.conn.wire|];
    assert t.conn.wire == s.conn.wire + [f];
    if !Told(s) { ChunkFits(c, s.log, s.conn); }
    SentKeepsView(c, s.log, s.client, s.conn.wire, f);
  }

  lemma ReadCatchesUp(c: Config, s: State)
    requires Sized(c) && Base(c, s) && s.conn.stage == Reading && s.conn.delivered <= LastSeq(s.log)
    requires Base(c, Apply(c, s, Read)) && PastReplay(c, Apply(c, s, Read).conn)
    ensures Whole(BacklogOf(c, Apply(c, s, Read)))
  {
    ChunkFits(c, s.log, s.conn);
    ReplayedEverything(c, Apply(c, s, Read));
  }

  lemma ReadKeepsInv(c: Config, s: State)
    requires Sized(c) && Inv(c, s) && s.conn.stage == Reading
    ensures Inv(c, Apply(c, s, Read))
  {
    ReadKeepsBase(c, s);
    if !Told(s) && PastReplay(c, Apply(c, s, Read).conn) {
      ReadCatchesUp(c, s);
    }
  }

  /** A connection that keeps its queue and sends in view keeps the base. */
  lemma SendingKeepsBase(c: Config, s: State, k: Conn)
    requires Base(c, s) && k.queue == s.conn.queue && k.stage != Closed && InView(c, s.log, s.client, k.wire)
    requires (k.stage.SendingBatch? ==> k.stage.batch != []) && (k.stage == SendingDrop ==> Told(s.(conn := k)))
    ensures Base(c, s.(conn := k))
  {
  }

  /** The frame sent by the coroutine as it runs on, if any, fits the end of the wire. */
  lemma SentKeepsBase(c: Config, s: State)
    requires Base(c, s)
    requires !Told(s) ==> EndCursor(s.client.cursor, s.conn.wire) == Committed(s.conn)
    ensures var t := Apply(c, s, Sent);
            && Base(c, t) && (Told(s) ==> Told(t))
            && (!Told(t) ==> EndCursor(t.client.cursor, t.conn.wire) == Committed(t.conn))
  {
    var k := AfterSend(c, s.conn);
    assert Committed(k) == Committed(s.conn) && k.queue == s.conn.queue;
    if k.wire == s.conn.wire {
      if k != s.conn { SendingKeepsBase(c, s, k); }
    } else if k.stage == SendingMark {
      MarkKeepsBase(c, s, k, LiveMark(k.delivered));
    } else {
      MarkKeepsBase(c, s, k, DroppedMark(k.delivered));
    }
  }

  /** Telling the client that it is live, or that it has to reconnect. */
  lemma MarkKeepsBase(c: Config, s: State, k: Conn, f: Frame)
    requires Base(c, s) && k.queue == s.conn.queue && k.wire == s.conn.wire + [f]
    requires (f.LiveMark? && k.stage == SendingMark) || (f.DroppedMark? && k.stage == SendingDrop)
    requires f.LiveMark? && !Told(s) ==> f.cursor == EndCursor(s.client.cursor, s.conn.wire)
    ensures var t := s.(conn := k);
            && Base(c, t) && (Told(s) || f.DroppedMark? ==> Told(t))
            && EndCursor(s.client.cursor, k.wire) == EndCursor(s.client.cursor, s.conn.wire)
  {
    SentKeepsView(c, s.log, s.client, s.conn.wire, f);
    SendingKeepsBase(c, s, k);
  }

  lemma SentKeepsFlow(c: Config, s: State)
    requires Flow(c, s) && s.conn.stage != SendingDrop && (s.conn.stage == SendingOne ==> s.conn.dropped == 0)
    requires s.conn.stage.SendingBatch? ==> s.conn.stage.batch != []
    requires EndCursor(Apply(c, s, Sent).client.cursor, Apply(c, s, Sent).conn.wire)
             == Committed(Apply(c, s, Sent).conn)
    ensures Flow(c, Apply(c, s, Sent))
  {
    var b, t := BacklogOf(c, s), Apply(c, s, Sent);
    assert Committed(t.conn) == Committed(s.conn);
    assert BacklogOf(c, t) == b.(sending := false);
    if !b.sending {
      assert BacklogOf(c, t) == b;
    }
  }

  /** A drop is noticed when the event being sent is out. */
  lemma DropIsTold(c: Config, s: State)
    ensures s.conn.stage == SendingOne && s.conn.dropped > 0 ==> Told(Apply(c, s, Sent))
  {
    if s.conn.stage == SendingOne && s.conn.dropped > 0 {
      assert Apply(c, s, Sent).conn.wire[|s.conn.wire|].DroppedMark?;
    }
  }

  lemma SentKeepsInv(c: Config, s: State)
    requires Inv(c, s)
    ensures Inv(c, Apply(c, s, Sent))
  {
    SentKeepsBase(c, s);
    if !Told(Apply(c, s, Sent)) {
      DropIsTold(c, s);
      SentKeepsFlow(c, s);
    }
  }

  /** Popping the queue's head. */
  lemma Popped(queue: seq<Event>, cursor: nat)
    requires queue != []
    ensures Beyond(queue, cursor) == (if cursor < queue[0].number then [queue[0]] else []) + Beyond(queue[1..], cursor)
  {
    assert queue == [queue[0]] + queue[1..];
    BeyondAppend([queue[0]], queue[1..], cursor);
    BeyondOne(queue[0], cursor);
  }

  lemma PoppedStaleIsFine(b: Backlog)
    requires Fine(b) && b.queue != [] && !Fresh(b.queue[0], b.cursor)
    ensures Fine(b.(queue := b.queue[1..]))
  {
    var t := b.(queue := b.queue[1..]);
    Popped(b.queue, b.cursor);
    if !Whole(b) && !b.sending && !NextIsComing(b) {
      var i: nat :| NextOut(b, i);
      assert i > 0 && b.queue[1..][..i - 1] == b.queue[..i][1..];
      assert NextOut(t, i - 1);
    } else if Whole(b) {
      assert Beyond(b.queue[1..], b.cursor) == Beyond(b.queue, b.cursor);
    }
  }

  lemma TakeStaleKeepsFlow(c: Config, s: State)
    requires Flow(c, s) && s.conn.stage == Idle && s.conn.queue != [] && !Fresh(s.conn.queue[0], s.conn.delivered)
    ensures Flow(c, Apply(c, s, Take))
  {
    var b := BacklogOf(c, s);
    assert BacklogOf(c, Apply(c, s, Take)) == b.(queue := b.queue[1..]);
    PoppedStaleIsFine(b);
  }

  lemma TakeStaleKeepsInv(c: Config, s: State)
    requires Inv(c, s) && s.conn.stage == Idle && s.conn.queue != [] && 0 < s.conn.queue[0].number <= s.conn.delivered
    ensures Inv(c, Apply(c, s, Take))
  {
    assert Told(Apply(c, s, Take)) == Told(s);
    if !Told(s) {
      TakeStaleKeepsFlow(c, s);
    }
  }

  lemma SendOneKeepsBase(c: Config, s: State)
    requires Base(c, s) && s.conn.stage == Idle && s.conn.queue != [] && Fresh(s.conn.queue[0], s.conn.delivered)
    requires !Told(s) ==> Fits(Wanted(c, s.log), EndCursor(s.client.cursor, s.conn.wire), One(s.conn.queue[0]))
    ensures var t := Apply(c, s, Take);
            && Base(c, t) && Told(t) == Told(s)
            && (s.client.open ==>
                  EndCursor(t.client.cursor, t.conn.wire)
                  == NextCursor(EndCursor(s.client.cursor, s.conn.wire), One(s.conn.queue[0])))
  {
    var t := Apply(c, s, Take);
    assert t.conn.wire == s.conn.wire + [One(s.conn.queue[0])];
    SentKeepsView(c, s.log, s.client, s.conn.wire, One(s.conn.queue[0]));
  }

  lemma PoppedLineIsFine(b: Backlog)
    requires Fine(b) && b.queue != [] && b.queue[0].number == 0
    ensures Fine(b.(queue := b.queue[1..], sending := true))
  {
    Popped(b.queue, b.cursor);
    assert Beyond(b.queue[1..], b.cursor) == Beyond(b.queue, b.cursor);
  }

  lemma TakeLineKeepsInv(c: Config, s: State)
    requires Inv(c, s) && s.conn.stage == Idle && s.conn.queue != [] && s.conn.queue[0].number == 0
    ensures Inv(c, Apply(c, s, Take))
  {
    SendOneKeepsBase(c, s);
    if !Told(s) {
      TakeLineKeepsFlow(c, s);
    }
  }

  lemma TakeLineKeepsFlow(c: Config, s: State)
    requires Flow(c, s) && s.conn.stage == Idle && s.conn.queue != [] && s.conn.queue[0].number == 0
    requires EndCursor(Apply(c, s, Take).client.cursor, Apply(c, s, Take).conn.wire) == s.conn.delivered
    ensures Flow(c, Apply(c, s, Take))
  {
    var b := BacklogOf(c, s);
    assert BacklogOf(c, Apply(c, s, Take)) == b.(queue := b.queue[1..], sending := true);
    PoppedLineIsFine(b);
  }

  lemma OneFits(rows: seq<Event>, cursor: nat, e: Event)
    requires Increasing(rows) && cursor < e.number && Beyond(rows, cursor) != [] && Beyond(rows, cursor)[0] == e
    ensures Fits(rows, cursor, One(e)) && e.number <= LastSeq(rows)
  {
    assert Beyond(rows, cursor)[..1] == [e];
    Advance(rows, cursor, 1);
  }

  /** A row at the queue's head that is not stale is the row the client needs next. */
  lemma HeadIsNext(c: Config, s: State)
    requires Base(c, s) && Flow(c, s) && s.conn.stage == Idle && s.conn.queue != []
    requires s.conn.delivered < s.conn.queue[0].number
    ensures Fits(Wanted(c, s.log), s.conn.delivered, One(s.conn.queue[0]))
    ensures s.conn.queue[0].number <= LastSeq(s.log)
  {
    WantedIncreasing(c, s.log);
    FirstIsDue(BacklogOf(c, s));
    OneFits(Wanted(c, s.log), s.conn.delivered, s.conn.queue[0]);
  }

  lemma FreshHead(queue: seq<Event>, cursor: nat)
    requires queue != [] && Fresh(queue[0], cursor)
    ensures forall i :: 0 < i <= |queue| ==> !AllStale(queue[..i], cursor)
    ensures !AllStale(queue, cursor)
  {
    forall i | 0 < i <= |queue| ensures !AllStale(queue[..i], cursor) {
      assert queue[..i][0] == queue[0];
    }
    assert queue[0] in queue;
  }

  lemma FirstIsDue(b: Backlog)
    requires Fine(b) && !b.sending && b.queue != [] && b.cursor < b.queue[0].number
    ensures b.due != [] && b.due[0] == b.queue[0]
  {
    FreshHead(b.queue, b.cursor);
    if Whole(b) {
      Popped(b.queue, b.cursor);
      assert Beyond(b.queue, b.cursor)[0] == b.queue[0];
    } else {
      var i: nat :| NextOut(b, i);
    }
  }

  /** The cursor moves over the first row due. */
  lemma MovedOver(rows: seq<Event>, cursor: nat)
    requires Increasing(rows) && Beyond(rows, cursor) != []
    ensures var first := Beyond(rows, cursor)[0];
            cursor < first.number && Beyond(rows, first.number) == Beyond(rows, cursor)[1..]
  {
    var first := Beyond(rows, cursor)[0];
    assert Beyond(rows, cursor)[..1] == [first];
    Advance(rows, cursor, 1);
  }

  lemma {:induction false} QueuedAfter(queue: seq<Event>, cursor: nat, later: nat)
    requires cursor <= later && forall e <- Beyond(queue, cursor) :: later < e.number
    ensures Beyond(queue, later) == Beyond(queue, cursor)
  {
    BeyondBeyond(queue, cursor, later);
    BeyondAll(Beyond(queue, cursor), later);
  }

  lemma SplitsAfter(due: seq<Event>, queued: seq<Event>, way: set<Event>, way': set<Event>)
    requires Increasing(due) && queued != [] && Splits(due, queued, way)
    requires forall e :: e in way' <==> e in way && queued[0].number < e.number
    ensures Splits(due[1..], queued[1..], way')
  {
    assert due[1..][|queued| - 1..] == due[|queued|..];
    forall e <- due[|queued|..] ensures queued[0].number < e.number {
      var k :| 0 <= k < |due[|queued|..]| && due[|queued|..][k] == e;
      assert due[|queued| + k] == e && due[0] == queued[0];
    }
  }

  /** The backlog after the queue's head, a row that is due, has gone out. */
  function WithoutFirst(b: Backlog): Backlog
    requires b.due != [] && b.queue != []
  {
    Backlog(b.due[1..], b.queue[1..], b.due[0].number, (set e <- b.way | b.due[0].number < e.number), b.dropped, true)
  }

  lemma PoppedRowIsFine(b: Backlog)
    requires Fine(b) && !b.sending && Sorted(b) && b.queue != [] && b.cursor < b.queue[0].number
    requires b.due != [] && b.due[0] == b.queue[0]
    ensures Fine(WithoutFirst(b))
  {
    if Whole(b) {
      var queued := Beyond(b.queue, b.cursor);
      Popped(b.queue, b.cursor);
      assert queued[0] == b.queue[0] && queued[1..] == Beyond(b.queue[1..], b.cursor);
      forall x <- queued[1..] ensures b.due[0].number < x.number {
        var k :| 0 <= k < |queued[1..]| && queued[1..][k] == x;
        assert b.due[k + 1] == x;
      }
      QueuedAfter(b.queue[1..], b.cursor, b.due[0].number);
      SplitsAfter(b.due, queued, b.way, WithoutFirst(b).way);
    }
  }

  lemma RowTaken(c: Config, s: State)
    requires Increasing(s.log) && s.conn.stage == Idle && s.conn.queue != []
             && s.conn.delivered < s.conn.queue[0].number
    requires After(c, s.log, s.conn.delivered) != [] && After(c, s.log, s.conn.delivered)[0] == s.conn.queue[0]
    ensures BacklogOf(c, Apply(c, s, Take)) == WithoutFirst(BacklogOf(c, s))
  {
    WantedStaysIncreasing(c, s.log);
    MovedOver(Wanted(c, s.log), s.conn.delivered);
    assert OnTheWay(c, Apply(c, s, Take)) == set e <- OnTheWay(c, s) | s.conn.queue[0].number < e.number;
  }

  lemma TakeRowKeepsBase(c: Config, s: State)
    requires Base(c, s) && !Told(s) && EndCursor(s.client.cursor, s.conn.wire) == s.conn.delivered
    requires s.conn.stage == Idle && s.conn.queue != [] && s.conn.delivered < s.conn.queue[0].number
    requires Fits(Wanted(c, s.log), s.conn.delivered, One(s.conn.queue[0])) && s.conn.queue[0].number <= LastSeq(s.log)
    ensures var t := Apply(c, s, Take);
            Base(c, t) && EndCursor(t.client.cursor, t.conn.wire) == Committed(t.conn) <= LastSeq(t.log)
  {
    SendOneKeepsBase(c, s);
    RowIsCommitted(c, s);
  }

  lemma RowIsCommitted(c: Config, s: State)
    requires s.conn.stage == Idle && s.conn.queue != [] && s.conn.delivered < s.conn.queue[0].number
    ensures Committed(Apply(c, s, Take).conn) == s.conn.queue[0].number
            == NextCursor(s.conn.delivered, One(s.conn.queue[0]))
    ensures Apply(c, s, Take).log == s.log && Apply(c, s, Take).client == s.client
  {
  }

  lemma TakeRowKeepsFlow(c: Config, s: State)
    requires Base(c, s) && Flow(c, s) && !Told(s)
    requires s.conn.stage == Idle && s.conn.queue != [] && s.conn.delivered < s.conn.queue[0].number
    ensures Flow(c, Apply(c, s, Take)) && Base(c, Apply(c, s, Take))
  {
    HeadIsNext(c, s);
    TakeRowKeepsBase(c, s);
    BacklogIsSorted(c, s);
    FirstIsDue(BacklogOf(c, s));
    RowTaken(c, s);
    PoppedRowIsFine(BacklogOf(c, s));
  }

  lemma TakeRowKeepsInv(c: Config, s: State)
    requires Inv(c, s) && s.conn.stage == Idle && s.conn.queue != [] && s.conn.delivered < s.conn.queue[0].number
    ensures Inv(c, Apply(c, s, Take))
  {
    if Told(s) {
      SendOneKeepsBase(c, s);
    } else {
      TakeRowKeepsFlow(c, s);
    }
  }

  lemma TakeKeepsInv(c: Config, s: State)
    requires Inv(c, s) && s.conn.stage == Idle && s.conn.queue != []
    ensures Inv(c, Apply(c, s, Take))
  {
    if s.conn.queue[0].number == 0 {
      TakeLineKeepsInv(c, s);
    } else if s.conn.queue[0].number <= s.conn.delivered {
      TakeStaleKeepsInv(c, s);
    } else {
      TakeRowKeepsInv(c, s);
    }
  }

  lemma LastOfMany(a: seq<Event>, b: seq<Event>, e: Event)
    ensures a + (b + [e]) == a + b + [e]
  {
  }

  lemma {:induction false} ApplyInOrder(b: Client, events: seq<Event>)
    requires events != [] && Increasing(events) && b.cursor < events[0].number
    ensures ApplyEvents(b, events) == b.(cursor := LastSeq(events), applied := b.applied + events)
  {
    var front, last := events[..|events| - 1], events[|events| - 1];
    if front != [] {
      ApplyInOrder(b, front);
    }
    LastOfMany(b.applied, front, last);
    assert events == front + [last];
  }

  /** A frame that fits keeps the client's rows exactly those up to its cursor. */
  lemma FrameApplied(rows: seq<Event>, b: Client, f: Frame)
    requires b.open && b.applied == UpTo(rows, b.cursor) && Fits(rows, b.cursor, f)
    ensures var b' := OnFrame(b, f);
            b'.open && b'.cursor == NextCursor(b.cursor, f) && b'.applied == UpTo(rows, b'.cursor)
  {
    match f {
      case Batch(events) => ApplyInOrder(b, events);
      case _ =>
    }
  }

  lemma ReceiveKeepsBase(c: Config, s: State)
    requires Base(c, s) && s.conn.wire != []
    ensures var t := Apply(c, s, Receive);
            && Base(c, t) && Told(t) == Told(s)
            && (!Told(s) ==> t.client.cursor == NextCursor(s.client.cursor, s.conn.wire[0]))
  {
    var t := Apply(c, s, Receive);
    var f := s.conn.wire[0];
    assert s.conn.wire == [f] + t.conn.wire;
    if s.client.open && !f.DroppedMark? {
      WantedStaysIncreasing(c, s.log);
      FitsWithin(Wanted(c, s.log), s.client.cursor, f, LastSeq(s.log));
      FrameApplied(Wanted(c, s.log), s.client, f);
    }
  }

  lemma ReceiveKeepsInv(c: Config, s: State)
    requires Inv(c, s) && s.conn.wire != []
    ensures Inv(c, Apply(c, s, Receive))
  {
    ReceiveKeepsBase(c, s);
    assert BacklogOf(c, Apply(c, s, Receive)) == BacklogOf(c, s);
  }

  lemma NoHopsStayOnce(hops: seq<Event>, unfanned: seq<Event>)
    requires Once(hops, unfanned)
    ensures Once([], unfanned)
  {
  }

  /** A connection that starts from the client's cursor has its view. */
  lemma NothingSent(c: Config, log: seq<Event>, client: Client, wire: seq<Frame>, open: bool)
    requires InView(c, log, client, wire)
    ensures InView(c, log, client.(open := open), [])
  {
  }

  lemma ConnectKeepsInv(c: Config, s: State)
    requires Inv(c, s)
    ensures Inv(c, Apply(c, s, Connect))
  {
    if s.conn.stage == Closed {
      NoHopsStayOnce(s.hops, s.unfanned);
      NothingSent(c, s.log, s.client, s.conn.wire, true);
    }
  }

  lemma DisconnectKeepsInv(c: Config, s: State)
    requires Inv(c, s)
    ensures Inv(c, Apply(c, s, Disconnect))
  {
    NoHopsStayOnce(s.hops, s.unfanned);
    NothingSent(c, s.log, s.client, s.conn.wire, false);
  }

  lemma StepKeepsInv(c: Config, s: State, a: Action)
    requires Sized(c) && Inv(c, s) && !Hazard(c, s, a)
    ensures Inv(c, Apply(c, s, a))
  {
    if Apply(c, s, a) != s {
      match a {
        case Insert(e) => InsertKeepsInv(c, s, e);
        case Publish(e) => PublishKeepsInv(c, s, e);
        case FanOut(i) => FanOutKeepsInv(c, s, i);
        case Offer(i) => OfferKeepsInv(c, s, i);
        case Read => ReadKeepsInv(c, s);
        case Sent => SentKeepsInv(c, s);
        case Take => TakeKeepsInv(c, s);
        case Receive => ReceiveKeepsInv(c, s);
        case Connect => ConnectKeepsInv(c, s);
        case Disconnect => DisconnectKeepsInv(c, s);
      }
    }
  }
}
