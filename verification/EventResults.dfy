/**
 What a client has seen over any number of connections, and exactly when a row can be lost.
 */
module EventResults {
  import opened EventLog
  import opened EventSteps
  import opened EventStream
  import opened Options

  lemma {:induction false} RunKeepsInv(c: Config, s: State, actions: seq<Action>)
    requires Sized(c) && Inv(c, s) && Safe(c, s, actions)
    ensures Inv(c, Run(c, s, actions))
    decreases |actions|
  {
    if actions != [] {
      StepKeepsInv(c, s, actions[0]);
      RunKeepsInv(c, Apply(c, s, actions[0]), actions[1..]);
    }
  }

  /** Nothing is on its way to the client and nothing was dropped. */
  ghost predicate CaughtUp(t: State) {
    && t.conn.stage == Idle && t.client.open && t.conn.dropped == 0
    && t.conn.wire == [] && t.conn.queue == [] && t.hops == [] && t.unfanned == []
  }

  /** Over any number of connections, the rows the client has applied are the matching rows
      of the log up to its cursor: no gap, no repeat, in order. Once a connection has gone
      live with nothing on its way and nothing dropped, they are all the matching rows. */
  lemma AppliedIsAPrefix(c: Config, actions: seq<Action>)
    requires Sized(c) && Safe(c, START, actions)
    ensures var t := Run(c, START, actions);
            && t.client.applied == UpTo(Wanted(c, t.log), t.client.cursor)
            && Increasing(t.client.applied)
            && t.client.applied + After(c, t.log, t.client.cursor) == Wanted(c, t.log)
            && (CaughtUp(t) ==> t.client.applied == Wanted(c, t.log))
  {
    assert Inv(c, START);
    RunKeepsInv(c, START, actions);
    InvMeansPrefix(c, Run(c, START, actions));
  }

  lemma CaughtUpHasNothingDue(c: Config, t: State)
    requires !Told(t) && Flow(c, t) && CaughtUp(t)
    ensures After(c, t.log, t.client.cursor) == []
  {
    assert OnTheWay(c, t) == {};
    BehindIsOnTheWay(After(c, t.log, t.client.cursor), [], OnTheWay(c, t));
  }

  lemma BehindIsOnTheWay(due: seq<Event>, queued: seq<Event>, way: set<Event>)
    requires Splits(due, queued, way)
    ensures |queued| < |due| ==> due[|queued|] in way
  {
    assert |queued| < |due| ==> due[|queued|] in due[|queued|..];
  }

  lemma InvMeansPrefix(c: Config, t: State)
    requires Inv(c, t)
    ensures t.client.applied == UpTo(Wanted(c, t.log), t.client.cursor)
    ensures Increasing(t.client.applied)
    ensures t.client.applied + After(c, t.log, t.client.cursor) == Wanted(c, t.log)
    ensures CaughtUp(t) ==> t.client.applied == Wanted(c, t.log)
  {
    var rows := Wanted(c, t.log);
    WantedStaysIncreasing(c, t.log);
    var p := Cut(rows, t.client.cursor);
    assert rows[..p] + rows[p..] == rows;
    if CaughtUp(t) {
      CaughtUpHasNothingDue(c, t);
      assert rows[p..] == [];
    }
  }

  // ------------------------------------------------------- exactly the hazards --

  lemma {:induction false} RunAppend(c: Config, s: State, a: seq<Action>, b: seq<Action>)
    ensures Run(c, s, a + b) == Run(c, Run(c, s, a), b)
    ensures Safe(c, s, a) && Safe(c, Run(c, s, a), b) ==> Safe(c, s, a + b)
    decreases |a|
  {
    if a == [] {
      assert a + b == b;
    } else {
      assert (a + b)[0] == a[0] && (a + b)[1..] == a[1..] + b;
      RunAppend(c, Apply(c, s, a[0]), a[1..], b);
    }
  }

  /** Some course of events without a hazard leads from one state to the other. */
  ghost predicate Leads(c: Config, s: State, t: State) {
    exists actions :: Safe(c, s, actions) && Run(c, s, actions) == t
  }

  lemma LeadsNowhere(c: Config, s: State)
    ensures Leads(c, s, s)
  {
    assert Safe(c, s, []) && Run(c, s, []) == s;
  }

  lemma LeadsOne(c: Config, s: State, a: Action)
    requires !Hazard(c, s, a)
    ensures Leads(c, s, Apply(c, s, a))
  {
    assert [a][0] == a && [a][1..] == [];
    assert Safe(c, Apply(c, s, a), []) && Run(c, Apply(c, s, a), []) == Apply(c, s, a);
    assert Safe(c, s, [a]) && Run(c, s, [a]) == Apply(c, s, a);
  }

  lemma LeadsOn(c: Config, s: State, t: State, u: State)
    requires Leads(c, s, t) && Leads(c, t, u)
    ensures Leads(c, s, u)
  {
    var first :| Safe(c, s, first) && Run(c, s, first) == t;
    var rest :| Safe(c, t, rest) && Run(c, t, rest) == u;
    RunAppend(c, s, first, rest);
  }

  lemma LeadsOneMore(c: Config, s: State, t: State, a: Action)
    requires Leads(c, s, t) && !Hazard(c, t, a)
    ensures Leads(c, s, Apply(c, t, a))
  {
    LeadsOne(c, t, a);
    LeadsOn(c, s, t, Apply(c, t, a));
  }

  /** The client's cursor has passed a matching row that it never applied. */
  ghost predicate Lost(c: Config, s: State, e: Event) {
    && e in Wanted(c, s.log) && e.number <= s.client.cursor && e !in s.client.applied
    && s.client.applied != UpTo(Wanted(c, s.log), s.client.cursor)
  }

  /** Without any further hazard, this row can be lost. */
  ghost predicate CanLose(c: Config, s: State, e: Event) {
    exists t :: Leads(c, s, t) && Lost(c, t, e)
  }

  lemma LeadsToLoss(c: Config, s: State, t: State, e: Event)
    requires Leads(c, s, t) && CanLose(c, t, e)
    ensures CanLose(c, s, e)
  {
    var u :| Leads(c, t, u) && Lost(c, u, e);
    LeadsOn(c, s, t, u);
  }

  lemma InvLosesNothing(c: Config, s: State, e: Event)
    requires Sized(c) && Inv(c, s)
    ensures !CanLose(c, s, e)
  {
    forall t | Leads(c, s, t) ensures !Lost(c, t, e) {
      var actions :| Safe(c, s, actions) && Run(c, s, actions) == t;
      RunKeepsInv(c, s, actions);
      InvMeansPrefix(c, t);
    }
  }

  // ------------------------------------------------------------- a row that is lost --

  /** No frame carries `e` or ends the connection. */
  ghost predicate Avoids(wire: seq<Frame>, e: Event) {
    forall f <- wire :: !f.DroppedMark? && (f.One? ==> f.event != e) && (f.Batch? ==> e !in f.events)
  }

  /** The client has not seen this row, nothing on the wire brings it, and it goes on reading. */
  ghost predicate Missing(c: Config, s: State, e: Event) {
    && Increasing(s.log) && e in Wanted(c, s.log)
    && s.client.open && e !in s.client.applied && Avoids(s.conn.wire, e)
  }

  lemma {:induction false} ApplyEventsAvoids(b: Client, events: seq<Event>, e: Event)
    requires e !in b.applied && e !in events
    ensures e !in ApplyEvents(b, events).applied && ApplyEvents(b, events).open == b.open
    ensures b.cursor <= ApplyEvents(b, events).cursor
  {
    if events != [] {
      ApplyEventsAvoids(b, events[..|events| - 1], e);
    }
  }

  /** Reading what is on the wire does not bring the row, and moves the cursor past later ones. */
  lemma {:induction false} ReceiveAll(c: Config, s: State, e: Event) returns (t: State)
    requires s.client.open && Avoids(s.conn.wire, e) && e !in s.client.applied
    ensures Leads(c, s, t) && t.log == s.log && e !in t.client.applied && s.client.cursor <= t.client.cursor
    ensures forall f <- s.conn.wire :: f.One? ==> f.event.number <= t.client.cursor
    decreases |s.conn.wire|
  {
    LeadsNowhere(c, s);
    t := s;
    if s.conn.wire != [] {
      var f := s.conn.wire[0];
      assert s.conn.wire == [f] + s.conn.wire[1..];
      if f.Batch? { ApplyEventsAvoids(s.client, f.events, e); }
      LeadsOne(c, s, Receive);
      t := ReceiveAll(c, Apply(c, s, Receive), e);
      LeadsOn(c, s, Apply(c, s, Receive), t);
    }
  }

  /** What is on the wire is not beyond the committed cursor. */
  lemma {:induction false} WireAvoids(rows: seq<Event>, cursor: nat, wire: seq<Frame>, e: Event)
    requires Readable(rows, cursor, wire) && (forall f <- wire :: !f.DroppedMark?) && EndCursor(cursor, wire) < e.number
    ensures Avoids(wire, e) && cursor <= EndCursor(cursor, wire)
    decreases |wire|
  {
    if wire != [] {
      WireAvoids(rows, NextCursor(cursor, wire[0]), wire[1..], e);
      assert wire == [wire[0]] + wire[1..];
      assert !wire[0].DroppedMark?;
    }
  }

  /** A row that is due has not been seen. */
  lemma DueIsMissing(c: Config, s: State, e: Event)
    requires Inv(c, s) && !Told(s) && e in s.log && Due(c, e, Committed(s.conn))
    ensures Missing(c, s, e)
  {
    WantedIncreasing(c, s.log);
    WireAvoids(Wanted(c, s.log), s.client.cursor, s.conn.wire, e);
    var p := Cut(Wanted(c, s.log), s.client.cursor);
  }

  /** Once a later row has gone out and the wire is read, the missing one is lost. */
  lemma PassedOver(c: Config, s: State, lost: Event, later: Event)
    requires Missing(c, s, lost) && One(later) in s.conn.wire && lost.number < later.number
    ensures CanLose(c, s, lost)
  {
    var t := ReceiveAll(c, s, lost);
    PassedIsDue(c, s.log, lost, t.client.cursor);
    assert Lost(c, t, lost);
  }

  lemma PassedIsDue(c: Config, log: seq<Event>, e: Event, cursor: nat)
    requires Increasing(log) && e in Wanted(c, log) && e.number <= cursor
    ensures e in UpTo(Wanted(c, log), cursor)
  {
    WantedIncreasing(c, log);
    var p := Cut(Wanted(c, log), cursor);
  }

  /** The live loop is about to send a later row. */
  lemma LaterGoesOut(c: Config, s: State, lost: Event)
    requires Missing(c, s, lost) && s.conn.stage == Idle && s.conn.queue != []
    requires s.conn.delivered < lost.number < s.conn.queue[0].number
    ensures CanLose(c, s, lost)
  {
    var later, t := s.conn.queue[0], Apply(c, s, Take);
    assert t.conn.wire[|s.conn.wire|] == One(later);
    LeadsOne(c, s, Take);
    PassedOver(c, t, lost, later);
    LeadsToLoss(c, s, t, lost);
  }

  /** Nothing in the queue's front is sent, or no drop is reported after it. */
  ghost predicate Unreported(k: Conn, front: seq<Event>) {
    k.dropped == 0 || AllStale(front, k.delivered)
  }

  /** The live loop takes the older events from the queue, reporting nothing. */
  lemma TakeOne(c: Config, s: State, lost: Event, front: seq<Event>, keep: seq<Event>) returns (t: State)
    requires Missing(c, s, lost) && s.conn.stage == Idle && s.conn.delivered < lost.number
    requires front != [] && s.conn.queue == front + keep && front[0].number < lost.number && Unreported(s.conn, front)
    ensures Leads(c, s, t) && Missing(c, t, lost) && t.conn.delivered < lost.number && Unreported(t.conn, front[1..])
    ensures t == s.(conn := s.conn.(queue := front[1..] + keep, delivered := t.conn.delivered, wire := t.conn.wire))
  {
    assert s.conn.queue[0] == front[0] && s.conn.queue[1..] == front[1..] + keep;
    assert front[0] in front;
    LeadsOne(c, s, Take);
    t := Apply(c, s, Take);
    if Fresh(front[0], s.conn.delivered) {
      LeadsOneMore(c, s, t, Sent);
      t := Apply(c, t, Sent);
    }
  }

  lemma {:induction false} TakeAll(c: Config, s: State, lost: Event, front: seq<Event>,
                                   keep: seq<Event>) returns (t: State)
    requires Missing(c, s, lost) && s.conn.stage == Idle && s.conn.delivered < lost.number
    requires s.conn.queue == front + keep && (forall e <- front :: e.number < lost.number) && Unreported(s.conn, front)
    ensures Leads(c, s, t) && Missing(c, t, lost) && t.conn.delivered < lost.number
    ensures t == s.(conn := s.conn.(queue := keep, delivered := t.conn.delivered, wire := t.conn.wire))
    decreases |front|
  {
    if front == [] {
      LeadsNowhere(c, s);
      assert front + keep == keep;
      t := s;
    } else {
      var next := TakeOne(c, s, lost, front, keep);
      t := TakeAll(c, next, lost, front[1..], keep);
      LeadsOn(c, s, next, t);
    }
  }

  /** The sends under way come to an end without a report, and the live loop begins. */
  lemma Settle(c: Config, s: State, lost: Event) returns (t: State)
    requires Missing(c, s, lost) && PastReplay(c, s.conn) && s.conn.stage != SendingDrop
    requires (s.conn.stage == SendingOne ==> s.conn.dropped == 0)
             && (s.conn.stage.SendingBatch? ==> s.conn.stage.batch != [])
    ensures Leads(c, s, t) && Missing(c, t, lost)
    ensures t == s.(conn := s.conn.(stage := Idle, delivered := Committed(s.conn), wire := t.conn.wire))
  {
    LeadsNowhere(c, s);
    t := s;
    if t.conn.stage != Idle {
      LeadsOneMore(c, s, t, Sent);
      t := Apply(c, t, Sent);
    }
    if t.conn.stage != Idle {
      LeadsOneMore(c, s, t, Sent);
      t := Apply(c, t, Sent);
    }
  }

  // --------------------------------------------------------- overtaking loses a row --

  /** What is queued is older than a row still on its way. */
  lemma QueuedIsOlder(b: Backlog, e: Event, lost: Event)
    requires Fine(b) && Sorted(b) && lost in b.way && e in b.queue && !Reporting(b)
    ensures e.number < lost.number
  {
    if b.cursor < e.number {
      assert Fresh(e, b.cursor);
      assert Whole(b);
      BeyondIs(b.queue, b.cursor, e);
      var queued := Beyond(b.queue, b.cursor);
      var i :| 0 <= i < |queued| && queued[i] == e;
      var k :| 0 <= k < |b.due[|queued|..]| && b.due[|queued|..][k] == lost;
      assert b.due[i] == e && b.due[|queued| + k] == lost;
    }
  }

  /** A row that is queued ahead of an older one makes the older one look like a repeat. */
  lemma OvertakingLosesARow(c: Config, s: State, i: nat, lost: Event)
    requires Sized(c) && Inv(c, s) && Overtakes(c, s, i)
    requires lost in OnTheWay(c, s) && lost.number < s.hops[i].number
    ensures CanLose(c, Apply(c, s, Offer(i)), lost)
  {
    WayIsMissing(c, s, lost);
    QueueIsOlder(c, s, lost);
    OvertakenIsLost(c, Apply(c, s, Offer(i)), lost, s.conn.queue, s.hops[i]);
  }

  lemma WayIsMissing(c: Config, s: State, lost: Event)
    requires Inv(c, s) && !Told(s) && lost in OnTheWay(c, s)
    ensures Missing(c, s, lost)
  {
    BacklogIsSorted(c, s);
    DueAreRows(c, s.log, Committed(s.conn), lost);
    DueIsMissing(c, s, lost);
  }

  lemma QueueIsOlder(c: Config, s: State, lost: Event)
    requires Inv(c, s) && Alone(c, s) && lost in OnTheWay(c, s) && !(s.conn.dropped > 0 && Busy(s.conn))
    ensures forall e <- s.conn.queue :: e.number < lost.number
  {
    BacklogIsSorted(c, s);
    forall e <- s.conn.queue ensures e.number < lost.number {
      QueuedIsOlder(BacklogOf(c, s), e, lost);
    }
  }

  /** A younger row is queued after older events whose sending reports nothing. */
  lemma OvertakenIsLost(c: Config, s: State, lost: Event, front: seq<Event>, later: Event)
    requires Missing(c, s, lost) && PastReplay(c, s.conn) && s.conn.stage != SendingDrop
    requires s.conn.stage.SendingBatch? ==> s.conn.stage.batch != []
    requires s.conn.dropped == 0 || (s.conn.stage != SendingOne && AllStale(front, Committed(s.conn)))
    requires s.conn.queue == front + [later] && forall e <- front :: e.number < lost.number
    requires Committed(s.conn) < lost.number < later.number
    ensures CanLose(c, s, lost)
  {
    var idle := Settle(c, s, lost);
    var drained := TakeAll(c, idle, lost, front, [later]);
    LaterGoesOut(c, drained, lost);
    LeadsToLoss(c, idle, drained, lost);
    LeadsToLoss(c, s, idle, lost);
  }

  // ------------------------------------------------------ a blind overflow loses a row --

  lemma {:induction false} OldestOf(events: seq<Event>, c: Config, cursor: nat) returns (x: Event)
    requires exists e <- events :: Due(c, e, cursor)
    ensures x in events && Due(c, x, cursor)
    ensures forall e <- events :: Due(c, e, cursor) ==> x.number <= e.number
  {
    var front, last := events[..|events| - 1], events[|events| - 1];
    assert events == front + [last];
    if exists e <- front :: Due(c, e, cursor) {
      x := OldestOf(front, c, cursor);
      if Due(c, last, cursor) && last.number < x.number {
        x := last;
      }
    } else {
      x := last;
    }
  }

  /** With an empty queue, the oldest row on its way can go out next. */
  lemma OldestIsQueued(c: Config, s: State) returns (t: State)
    requires Sized(c) && s.conn.stage == Idle && s.conn.queue == [] && OnTheWay(c, s) != {}
    ensures Leads(c, s, t) && t.log == s.log && t.client == s.client && t.conn == s.conn.(queue := t.conn.queue)
    ensures |t.conn.queue| == 1 && t.conn.queue[0] in OnTheWay(c, s)
  {
    var d := s.conn.delivered;
    var some :| some in OnTheWay(c, s);
    assert some in s.hops + s.unfanned;
    var x := OldestOf(s.hops + s.unfanned, c, d);
    var u := s;
    LeadsNowhere(c, s);
    if x !in s.hops {
      var i :| 0 <= i < |s.unfanned| && s.unfanned[i] == x;
      LeadsOne(c, s, FanOut(i));
      u := Apply(c, s, FanOut(i));
      FannedOut(c, s, i);
      assert u.hops[|s.hops|] == x;
    }
    var i :| 0 <= i < |u.hops| && u.hops[i] == x;
    assert !Older(c, u, x);
    LeadsOneMore(c, s, u, Offer(i));
    t := Apply(c, u, Offer(i));
  }

  /** A row inserted now is due. */
  lemma InsertedIsOnTheWay(c: Config, s: State, e: Event)
    requires LastSeq(s.log) < e.number && Wants(c, e) && Committed(s.conn) <= LastSeq(s.log)
    ensures OnTheWay(c, Apply(c, s, Insert(e))) == OnTheWay(c, s) + {e}
  {
    WayAppend(c, s, Apply(c, s, Insert(e)), e);
  }

  /** In the quiet live loop, with every row on its way younger than the missing one. */
  lemma YoungerGoesOut(c: Config, s: State, lost: Event)
    requires Sized(c) && Missing(c, s, lost) && s.conn.stage == Idle && s.conn.queue == []
    requires s.conn.delivered < lost.number && s.conn.delivered <= LastSeq(s.log)
    requires forall e <- OnTheWay(c, s) :: lost.number < e.number
    ensures CanLose(c, s, lost)
  {
    var later := Event(LastSeq(s.log) + 1, c.run, c.repo);
    var t := Apply(c, s, Insert(later));
    LeadsOne(c, s, Insert(later));
    InsertedIsOnTheWay(c, s, later);
    StillMissing(c, s, later, lost);
    var u := OldestIsQueued(c, t);
    LaterGoesOut(c, u, lost);
    LeadsOn(c, s, t, u);
    LeadsToLoss(c, s, u, lost);
  }

  lemma StillMissing(c: Config, s: State, later: Event, lost: Event)
    requires Missing(c, s, lost) && LastSeq(s.log) < later.number
    ensures Missing(c, Apply(c, s, Insert(later)), lost) && lost.number < later.number
  {
    LongerIncreasing(s.log, later);
    WantedSubset(c, s.log, lost);
    WantedAppend(c, s.log, later);
    var i :| 0 <= i < |s.log| && s.log[i] == lost;
    assert lost.number <= LastSeq(s.log);
  }

  /** The row of a blind overflow can stay lost: a younger row goes out before any check for drops. */
  lemma BlindOverflowLosesARow(c: Config, s: State, i: nat)
    requires Sized(c) && Inv(c, s) && Blind(c, s, i)
    ensures CanLose(c, Apply(c, s, Offer(i)), s.hops[i])
  {
    var t := Apply(c, s, Offer(i));
    OfferedIsMissing(c, s, i);
    YoungerAreLeft(c, s, i);
    assert t.conn == s.conn.(dropped := s.conn.dropped + 1) && t.client == s.client && t.log == s.log;
    OverflownStays(c, s, t, s.hops[i]);
    OverflownIsLost(c, t, s.hops[i]);
  }

  lemma OverflownStays(c: Config, s: State, t: State, lost: Event)
    requires Missing(c, s, lost) && t.conn == s.conn.(dropped := t.conn.dropped) && t.client == s.client
             && t.log == s.log
    ensures Missing(c, t, lost) && Committed(t.conn) == Committed(s.conn)
    ensures Busy(t.conn) == Busy(s.conn) && PastReplay(c, t.conn) == PastReplay(c, s.conn)
  {
  }

  lemma OfferedIsMissing(c: Config, s: State, i: nat)
    requires Inv(c, s) && !Told(s) && i < |s.hops| && Due(c, s.hops[i], Committed(s.conn))
    ensures Missing(c, s, s.hops[i])
  {
    assert s.hops[i] in s.hops;
    DueIsMissing(c, s, s.hops[i]);
  }

  /** Only replayed rows are queued, and only younger rows are on their way. */
  lemma OverflownIsLost(c: Config, s: State, lost: Event)
    requires Sized(c) && Missing(c, s, lost) && PastReplay(c, s.conn) && s.conn.stage != SendingDrop && !Busy(s.conn)
    requires s.conn.stage.SendingBatch? ==> s.conn.stage.batch != []
    requires Committed(s.conn) < lost.number && Committed(s.conn) <= LastSeq(s.log)
    requires forall e <- OnTheWay(c, s) :: lost.number < e.number
    ensures CanLose(c, s, lost)
  {
    var idle := Settle(c, s, lost);
    var drained := TakeAllStale(c, idle, lost);
    assert OnTheWay(c, drained) == OnTheWay(c, s);
    YoungerGoesOut(c, drained, lost);
    LeadsToLoss(c, idle, drained, lost);
    LeadsToLoss(c, s, idle, lost);
  }

  lemma {:induction false} TakeAllStale(c: Config, s: State, lost: Event) returns (t: State)
    requires Missing(c, s, lost) && s.conn.stage == Idle && AllStale(s.conn.queue, s.conn.delivered)
    ensures Leads(c, s, t) && t == s.(conn := s.conn.(queue := []))
    decreases |s.conn.queue|
  {
    if s.conn.queue == [] {
      LeadsNowhere(c, s);
      t := s;
    } else {
      assert s.conn.queue[0] in s.conn.queue;
      LeadsOne(c, s, Take);
      t := TakeAllStale(c, Apply(c, s, Take), lost);
      LeadsOn(c, s, Apply(c, s, Take), t);
    }
  }

  /** After a blind overflow only younger rows are on their way. */
  lemma YoungerAreLeft(c: Config, s: State, i: nat)
    requires Base(c, s) && Blind(c, s, i)
    ensures forall e <- OnTheWay(c, Apply(c, s, Offer(i))) :: s.hops[i].number < e.number
  {
    var x := s.hops[i];
    OffTheWay(c, s, i);
    assert x in s.hops;
    forall e <- OnTheWay(c, s) | e != x ensures x.number < e.number {
      assert e in s.log && x in s.log;
      var k :| 0 <= k < |s.log| && s.log[k] == e;
      var n :| 0 <= n < |s.log| && s.log[n] == x;
    }
  }

  // ------------------------------------------------------------------ the condition --

  /** Exactly the hazards: from any state the protocol can be in, a step is a hazard if and only
      if a row can be lost after it without any further hazard. */
  lemma HazardsExactly(c: Config, s: State, a: Action)
    requires Sized(c) && Inv(c, s)
    ensures Hazard(c, s, a) <==> exists e :: CanLose(c, Apply(c, s, a), e)
  {
    if Hazard(c, s, a) {
      if Blind(c, s, a.i) {
        BlindOverflowLosesARow(c, s, a.i);
      } else {
        var lost :| lost in OnTheWay(c, s) && lost.number < s.hops[a.i].number;
        OvertakingLosesARow(c, s, a.i, lost);
      }
    } else {
      StepKeepsInv(c, s, a);
      forall e ensures !CanLose(c, Apply(c, s, a), e) {
        InvLosesNothing(c, Apply(c, s, a), e);
      }
    }
  }

  // ------------------------------------------------------------- both are reached --

  lemma OneMore(c: Config, s: State, first: seq<Action>, a: Action)
    requires Safe(c, s, first) && !Hazard(c, Run(c, s, first), a)
    ensures Safe(c, s, first + [a]) && Run(c, s, first + [a]) == Apply(c, Run(c, s, first), a)
  {
    LeadsOne(c, Run(c, s, first), a);
    RunAppend(c, s, first, [a]);
    assert [a][0] == a && [a][1..] == [] && Safe(c, Run(c, s, first + [a]), []);
  }

  /** One connection whose queue and chunk hold one row: the row is inserted, queued and read
      by the replay, then the next row is on its way while the replay ends. */
  lemma BlindFromStart(c: Config) returns (actions: seq<Action>)
    requires c == Config(None, None, 1, 1)
    ensures Safe(c, START, actions) && Blind(c, Run(c, START, actions), 0)
    ensures Run(c, START, actions).hops == [Event(2, None, None)]
  {
    var one, two := Event(1, None, None), Event(2, None, None);
    actions := ReplayOver(c, one);
    OneMore(c, START, actions, Insert(two));
    actions := actions + [Insert(two)];
    OneMore(c, START, actions, FanOut(0));
    actions := actions + [FanOut(0)];
    assert Run(c, START, actions)
        == State([one, two], [], [two], Conn(SendingMark, 1, [one], 0, [Batch([one]), LiveMark(1)]),
                 Client(0, [], true));
  }

  lemma ReplayOver(c: Config, e: Event) returns (actions: seq<Action>)
    requires c == Config(None, None, 1, 1) && e == Event(1, None, None)
    ensures Safe(c, START, actions)
    ensures Run(c, START, actions)
         == State([e], [], [], Conn(SendingMark, 1, [e], 0, [Batch([e]), LiveMark(1)]), Client(0, [], true))
  {
    actions := ReplayedOnce(c, e);
    ReadsNoMore(c, e);
    OneMore(c, START, actions, Read);
    actions := actions + [Read];
  }

  /** The first row is in the queue. */
  lemma QueuedOnce(c: Config, e: Event) returns (actions: seq<Action>)
    requires c == Config(None, None, 1, 1) && e == Event(1, None, None)
    ensures Safe(c, START, actions)
    ensures Run(c, START, actions) == State([e], [], [], Conn(Reading, 0, [e], 0, []), Client(0, [], true))
  {
    OneMore(c, START, [], Connect);
    OneMore(c, START, [Connect], Insert(e));
    actions := [Connect] + [Insert(e)];
    assert Run(c, START, actions) == State([e], [e], [], Conn(Reading, 0, [], 0, []), Client(0, [], true));
    OneMore(c, START, actions, FanOut(0));
    actions := actions + [FanOut(0)];
    assert Run(c, START, actions) == State([e], [], [e], Conn(Reading, 0, [], 0, []), Client(0, [], true));
    OneMore(c, START, actions, Offer(0));
    actions := actions + [Offer(0)];
  }

  /** The first row is in the queue, and the replay has sent it as well. */
  lemma ReplayedOnce(c: Config, e: Event) returns (actions: seq<Action>)
    requires c == Config(None, None, 1, 1) && e == Event(1, None, None)
    ensures Safe(c, START, actions)
    ensures Run(c, START, actions) == State([e], [], [], Conn(Reading, 1, [e], 0, [Batch([e])]), Client(0, [], true))
  {
    actions := ReadOnce(c, e);
    OneMore(c, START, actions, Sent);
    actions := actions + [Sent];
  }

  lemma ReadOnce(c: Config, e: Event) returns (actions: seq<Action>)
    requires c == Config(None, None, 1, 1) && e == Event(1, None, None)
    ensures Safe(c, START, actions)
    ensures Run(c, START, actions)
            == State([e], [], [], Conn(SendingBatch([e]), 0, [e], 0, [Batch([e])]), Client(0, [], true))
  {
    actions := QueuedOnce(c, e);
    ReadsTheRow(c, e);
    OneMore(c, START, actions, Read);
    actions := actions + [Read];
  }

  lemma ReadsTheRow(c: Config, e: Event)
    requires c == Config(None, None, 1, 1) && e == Event(1, None, None)
    ensures ReadChunk(c, Conn(Reading, 0, [e], 0, []), [e]) == Conn(SendingBatch([e]), 0, [e], 0, [Batch([e])])
  {
    OneRowLog(c, e);
  }

  lemma ReadsNoMore(c: Config, e: Event)
    requires c == Config(None, None, 1, 1) && e == Event(1, None, None)
    ensures ReadChunk(c, Conn(Reading, 1, [e], 0, [Batch([e])]), [e])
         == Conn(SendingMark, 1, [e], 0, [Batch([e]), LiveMark(1)])
  {
    OneRowLog(c, e);
  }

  lemma OneRowLog(c: Config, e: Event)
    requires Wants(c, e) && e.number == 1
    ensures After(c, [e], 0) == [e] && After(c, [e], 1) == []
  {
    WantedAppend(c, [], e);
    assert [] + [e] == [e];
    BeyondOne(e, 0);
    BeyondOne(e, 1);
  }

  lemma StartQualifies(c: Config)
    ensures Inv(c, START)
  {
  }

  /** The first hazard comes after `first`, and there is no other. */
  lemma LostAfter(c: Config, first: seq<Action>, a: Action, e: Event) returns (actions: seq<Action>)
    requires CanLose(c, Apply(c, Run(c, START, first), a), e)
    ensures Lost(c, Run(c, START, actions), e)
  {
    var s := Apply(c, Run(c, START, first), a);
    var t :| Leads(c, s, t) && Lost(c, t, e);
    var rest :| Safe(c, s, rest) && Run(c, s, rest) == t;
    assert [a][1..] == [];
    RunAppend(c, START, first, [a]);
    RunAppend(c, START, first + [a], rest);
    actions := first + [a] + rest;
  }

  /** From the empty log, a blind overflow can make a client pass a row that it never applies. */
  lemma OverflowsCanLoseRows() returns (c: Config, actions: seq<Action>, e: Event)
    ensures Sized(c) && Lost(c, Run(c, START, actions), e)
  {
    c := Config(None, None, 1, 1);
    var first := BlindFromStart(c);
    var s := Run(c, START, first);
    e := s.hops[0];
    StartQualifies(c);
    RunKeepsInv(c, START, first);
    BlindOverflowLosesARow(c, s, 0);
    actions := LostAfter(c, first, Offer(0), e);
  }

  /** A live connection, and two rows on their way to it. */
  lemma TwoOnTheirWay(c: Config) returns (actions: seq<Action>)
    requires c == Config(None, None, 1, 1)
    ensures Safe(c, START, actions)
    ensures var one, two := Event(1, None, None), Event(2, None, None);
            Run(c, START, actions)
              == State([one, two], [], [one, two], Conn(Idle, 0, [], 0, [LiveMark(0)]), Client(0, [], true))
  {
    var one, two := Event(1, None, None), Event(2, None, None);
    actions := GoneLive(c);
    OneMore(c, START, actions, Insert(one));
    actions := actions + [Insert(one)];
    assert Run(c, START, actions) == State([one], [one], [], Conn(Idle, 0, [], 0, [LiveMark(0)]), Client(0, [], true));
    OneMore(c, START, actions, FanOut(0));
    actions := actions + [FanOut(0)];
    assert Run(c, START, actions) == State([one], [], [one], Conn(Idle, 0, [], 0, [LiveMark(0)]), Client(0, [], true));
    OneMore(c, START, actions, Insert(two));
    actions := actions + [Insert(two)];
    assert Run(c, START, actions)
        == State([one, two], [two], [one], Conn(Idle, 0, [], 0, [LiveMark(0)]), Client(0, [], true));
    OneMore(c, START, actions, FanOut(0));
    actions := actions + [FanOut(0)];
  }

  lemma GoneLive(c: Config) returns (actions: seq<Action>)
    requires c == Config(None, None, 1, 1)
    ensures Safe(c, START, actions)
    ensures Run(c, START, actions) == State([], [], [], Conn(Idle, 0, [], 0, [LiveMark(0)]), Client(0, [], true))
  {
    OneMore(c, START, [], Connect);
    OneMore(c, START, [Connect], Read);
    actions := [Connect] + [Read];
    assert Run(c, START, actions) == State([], [], [], Conn(SendingMark, 0, [], 0, [LiveMark(0)]), Client(0, [], true));
    OneMore(c, START, actions, Sent);
    actions := actions + [Sent];
  }

  /** From the empty log, two emitters are enough: the first row is written on a worker thread
      and hops to the loop, the second one is written on the loop and is offered at once. */
  lemma EmittersCanLoseRows() returns (c: Config, actions: seq<Action>, e: Event)
    ensures Sized(c) && Lost(c, Run(c, START, actions), e)
  {
    c, e := Config(None, None, 1, 1), Event(1, None, None);
    var first := TwoOnTheirWay(c);
    var s := Run(c, START, first);
    StartQualifies(c);
    RunKeepsInv(c, START, first);
    assert e in s.hops + s.unfanned && Due(c, e, 0) && s.hops[1].number == 2;
    assert Overtakes(c, s, 1);
    OvertakingLosesARow(c, s, 1, e);
    actions := LostAfter(c, first, Offer(1), e);
  }
}
