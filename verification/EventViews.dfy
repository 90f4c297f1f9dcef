/**
 What a view is, on the columns of the log; and that it is kept up with.
 */
module EventViews {
  import opened EventLog
  import opened EventResults
  import opened EventSteps
  import opened EventStream
  import opened Options

  /** The rows a client has applied are those of the run and the repository it asked for, up to
      its cursor, none missing; of every run and repository if it asked for none. */
  lemma AppliedIsTheView(c: Config, actions: seq<Action>)
    requires Sized(c) && Safe(c, START, actions)
    ensures var t := Run(c, START, actions);
            && Increasing(t.client.applied)
            && (forall e :: e in t.client.applied <==>
                  && e in t.log && e.number <= t.client.cursor
                  && (c.run.Some? ==> e.run == c.run) && (c.repo.Some? ==> e.repo == c.repo))
            && (CaughtUp(t) ==> forall e <- t.log ::
                  (c.run.Some? ==> e.run == c.run) && (c.repo.Some? ==> e.repo == c.repo) ==> e in t.client.applied)
  {
    var t := Run(c, START, actions);
    AppliedIsAPrefix(c, actions);
    StartQualifies(c);
    RunKeepsInv(c, START, actions);
    WantedStaysIncreasing(c, t.log);
    forall e ensures (e in t.client.applied <==> InTheView(c, t.log, t.client.cursor, e))
                  && (e in Wanted(c, t.log) <==> e in t.log && Wants(c, e)) {
      SeenIsTheView(c, t.log, t.client.cursor, e);
    }
  }

  /** A row of the run and the repository asked for, up to the cursor. */
  predicate InTheView(c: Config, log: seq<Event>, cursor: nat, e: Event) {
    e in log && e.number <= cursor && (c.run.Some? ==> e.run == c.run) && (c.repo.Some? ==> e.repo == c.repo)
  }

  lemma SeenIsTheView(c: Config, log: seq<Event>, cursor: nat, e: Event)
    requires Increasing(log)
    ensures e in Seen(c, log, cursor) <==> InTheView(c, log, cursor, e)
    ensures e in Wanted(c, log) <==> e in log && Wants(c, e)
  {
    WantedIncreasing(c, log);
    UpToHas(Wanted(c, log), cursor, e);
  }

  lemma {:induction false} UpToHas(events: seq<Event>, cursor: nat, e: Event)
    ensures e in UpTo(events, cursor) <==> e in events && e.number <= cursor
  {
    if events != [] {
      UpToHas(events[..|events| - 1], cursor, e);
      assert events == events[..|events| - 1] + [events[|events| - 1]];
    }
  }

  lemma {:induction false} WantedIsAll(c: Config, events: seq<Event>)
    requires AllWanted(c, events)
    ensures Wanted(c, events) == events
  {
    if events != [] {
      WantedIsAll(c, events[..|events| - 1]);
      assert events == events[..|events| - 1] + [events[|events| - 1]];
    }
  }

  /** Without a filter the client has the beginning of the log itself. */
  lemma UnfilteredIsTheLog(c: Config, actions: seq<Action>) returns (p: nat)
    requires Sized(c) && Safe(c, START, actions) && c.run.None? && c.repo.None?
    ensures var t := Run(c, START, actions); p <= |t.log| && t.client.applied == t.log[..p]
  {
    var t := Run(c, START, actions);
    AppliedIsAPrefix(c, actions);
    StartQualifies(c);
    RunKeepsInv(c, START, actions);
    WantedIsAll(c, t.log);
    p := Cut(t.log, t.client.cursor);
  }

  // ------------------------------------------------------------- nothing foreign --

  /** Every event in the frame is of the run and the repository asked for. */
  ghost predicate FrameOf(c: Config, f: Frame) {
    && (f.One? ==> (c.run.Some? ==> f.event.run == c.run) && (c.repo.Some? ==> f.event.repo == c.repo))
    && (f.Batch? ==> forall e <- f.events :: (c.run.Some? ==> e.run == c.run) && (c.repo.Some? ==> e.repo == c.repo))
  }

  ghost predicate NothingForeign(c: Config, s: State) {
    && AllWanted(c, s.hops) && AllWanted(c, s.conn.queue)
    && forall f <- s.conn.wire :: FrameOf(c, f)
  }

  lemma StepSendsNothingForeign(c: Config, s: State, a: Action)
    requires NothingForeign(c, s)
    ensures NothingForeign(c, Apply(c, s, a))
  {
    match a {
      case Offer(i) => if i < |s.hops| { TakenOut(s.hops, i); }
      case Read => if s.conn.stage == Reading { ChunkIsWanted(c, s.log, s.conn.delivered); }
      case Take => if s.conn.queue != [] { assert s.conn.queue[0] in s.conn.queue; }
      case _ =>
    }
  }

  lemma ChunkIsWanted(c: Config, log: seq<Event>, cursor: nat)
    ensures forall e <- Since(c, log, cursor, c.chunk) :: Wants(c, e)
  {
    forall e <- Since(c, log, cursor, c.chunk) ensures Wants(c, e) {
      assert e in After(c, log, cursor);
      DueAreRows(c, log, cursor, e);
    }
  }

  /** Whatever happens, nothing of another run or repository is ever sent: rows or lines, replayed or live. */
  lemma {:induction false} NothingForeignIsSent(c: Config, s: State, actions: seq<Action>)
    requires NothingForeign(c, s)
    ensures forall f <- Run(c, s, actions).conn.wire :: FrameOf(c, f)
    ensures NothingForeign(c, Run(c, s, actions))
    decreases |actions|
  {
    if actions != [] {
      StepSendsNothingForeign(c, s, actions[0]);
      NothingForeignIsSent(c, Apply(c, s, actions[0]), actions[1..]);
    }
  }

  // ------------------------------------------------------------- lines in order --

  /** The events without a number, in order. */
  function Lines(events: seq<Event>): seq<Event> {
    if events == [] then []
    else (if events[0].number == 0 then [events[0]] else []) + Lines(events[1..])
  }

  function LinesOfFrames(frames: seq<Frame>): seq<Event> {
    if frames == [] then []
    else (if frames[0].One? && frames[0].event.number == 0 then [frames[0].event] else []) + LinesOfFrames(frames[1..])
  }

  /** What one step puts on the wire, and what it adds to the queue. */
  function NewFrames(s: State, t: State): seq<Frame> {
    if |s.conn.wire| <= |t.conn.wire| then t.conn.wire[|s.conn.wire|..] else []
  }

  function NewlyQueued(s: State, t: State): seq<Event> {
    if |s.conn.queue| <= |t.conn.queue| then t.conn.queue[|s.conn.queue|..] else []
  }

  function LinesSent(c: Config, s: State, actions: seq<Action>): seq<Event>
    decreases |actions|
  {
    if actions == [] then []
    else
      var t := Apply(c, s, actions[0]);
      LinesOfFrames(NewFrames(s, t)) + LinesSent(c, t, actions[1..])
  }

  function LinesQueued(c: Config, s: State, actions: seq<Action>): seq<Event>
    decreases |actions|
  {
    if actions == [] then []
    else
      var t := Apply(c, s, actions[0]);
      Lines(NewlyQueued(s, t)) + LinesQueued(c, t, actions[1..])
  }

  lemma {:induction false} LinesAppend(a: seq<Event>, b: seq<Event>)
    ensures Lines(a + b) == Lines(a) + Lines(b)
  {
    if a == [] {
      assert a + b == b;
    } else {
      assert (a + b)[0] == a[0] && (a + b)[1..] == a[1..] + b;
      LinesAppend(a[1..], b);
      Associates(if a[0].number == 0 then [a[0]] else [], Lines(a[1..]), Lines(b));
    }
  }

  lemma Associates(a: seq<Event>, b: seq<Event>, c: seq<Event>)
    ensures a + (b + c) == (a + b) + c
  {
  }

  lemma LinesOfOne(e: Event)
    ensures Lines([e]) == if e.number == 0 then [e] else []
    ensures LinesOfFrames([One(e)]) == if e.number == 0 then [e] else []
  {
    assert [e][1..] == [] && [One(e)][1..] == [];
  }

  lemma LinesOfMark(f: Frame)
    requires !f.One?
    ensures LinesOfFrames([f]) == []
  {
    assert [f][1..] == [];
  }

  lemma StepKeepsLines(c: Config, s: State, a: Action)
    requires !a.Connect? && !a.Disconnect?
    ensures var t := Apply(c, s, a);
            Lines(s.conn.queue) + Lines(NewlyQueued(s, t)) == LinesOfFrames(NewFrames(s, t)) + Lines(t.conn.queue)
  {
    var t := Apply(c, s, a);
    if a.Offer? && a.i < |s.hops| && |s.conn.queue| < c.capacity {
      LinesAppend(s.conn.queue, [s.hops[a.i]]);
      assert NewlyQueued(s, t) == [s.hops[a.i]] && NewFrames(s, t) == [];
    } else if a.Take? && s.conn.stage == Idle && s.conn.queue != [] {
      TakeKeepsLines(c, s);
    } else {
      assert t.conn.queue == s.conn.queue && NewlyQueued(s, t) == [];
      NoLineElsewhere(c, s, a);
    }
  }

  lemma TakeKeepsLines(c: Config, s: State)
    requires s.conn.stage == Idle && s.conn.queue != []
    ensures var t := Apply(c, s, Take);
            Lines(s.conn.queue) + Lines(NewlyQueued(s, t)) == LinesOfFrames(NewFrames(s, t)) + Lines(t.conn.queue)
  {
    var t, e := Apply(c, s, Take), s.conn.queue[0];
    LinesOfOne(e);
    assert NewlyQueued(s, t) == [] && s.conn.queue == [e] + s.conn.queue[1..];
    LinesAppend([e], s.conn.queue[1..]);
    if Fresh(e, s.conn.delivered) {
      assert NewFrames(s, t) == [One(e)];
    } else {
      assert NewFrames(s, t) == [];
    }
  }

  lemma NoLineElsewhere(c: Config, s: State, a: Action)
    requires !a.Connect? && !a.Disconnect? && !(a.Take? && s.conn.stage == Idle && s.conn.queue != [])
    ensures LinesOfFrames(NewFrames(s, Apply(c, s, a))) == []
  {
    var t := Apply(c, s, a);
    if |t.conn.wire| == |s.conn.wire| + 1 {
      assert NewFrames(s, t) == [t.conn.wire[|s.conn.wire|]];
      LinesOfMark(t.conn.wire[|s.conn.wire|]);
    } else {
      assert NewFrames(s, t) == [];
    }
  }

  lemma Chain(queue: seq<Event>, queued: seq<Event>, sent: seq<Event>, queue': seq<Event>,
              later: seq<Event>, sent': seq<Event>, last: seq<Event>)
    requires queue + queued == sent + queue' && queue' + later == sent' + last
    ensures queue + (queued + later) == (sent + sent') + last
  {
    calc {
      queue + (queued + later);
      (queue + queued) + later;
      (sent + queue') + later;
      sent + (queue' + later);
      sent + (sent' + last);
      (sent + sent') + last;
    }
  }

  /** Within a connection, log lines are sent first in, first out: what was queued and what has
      been queued since is what has been sent, followed by what still waits. */
  lemma {:induction false} LinesAreFifo(c: Config, s: State, actions: seq<Action>)
    requires forall a <- actions :: !a.Connect? && !a.Disconnect?
    ensures Lines(s.conn.queue) + LinesQueued(c, s, actions)
         == LinesSent(c, s, actions) + Lines(Run(c, s, actions).conn.queue)
    decreases |actions|
  {
    if actions != [] {
      var t := Apply(c, s, actions[0]);
      StepKeepsLines(c, s, actions[0]);
      LinesAreFifo(c, t, actions[1..]);
      Chain(Lines(s.conn.queue), Lines(NewlyQueued(s, t)), LinesOfFrames(NewFrames(s, t)), Lines(t.conn.queue),
            LinesQueued(c, t, actions[1..]), LinesSent(c, t, actions[1..]), Lines(Run(c, s, actions).conn.queue));
    }
  }

  // -------------------------------------------------------------------- reports --

  function Reports(frames: seq<Frame>): nat {
    if frames == [] then 0 else Reports(frames[..|frames| - 1]) + if frames[|frames| - 1].DroppedMark? then 1 else 0
  }

  lemma ReportsOfOne(f: Frame)
    ensures Reports([f]) == if f.DroppedMark? then 1 else 0
  {
    assert [f][..0] == [];
  }

  /** The step offers an event to a full queue. */
  predicate Overflows(c: Config, s: State, a: Action) {
    a.Offer? && a.i < |s.hops| && |s.conn.queue| >= c.capacity
  }

  /** A drop is still to be reported. */
  predicate Owed(k: Conn) {
    k.dropped > 0 && k.stage != SendingDrop
  }

  function ReportsSent(c: Config, s: State, actions: seq<Action>): nat
    decreases |actions|
  {
    if actions == [] then 0
    else
      var t := Apply(c, s, actions[0]);
      Reports(NewFrames(s, t)) + ReportsSent(c, t, actions[1..])
  }

  function Overflown(c: Config, s: State, actions: seq<Action>): nat
    decreases |actions|
  {
    if actions == [] then 0
    else (if Overflows(c, s, actions[0]) then 1 else 0) + Overflown(c, Apply(c, s, actions[0]), actions[1..])
  }

  lemma StepReports(c: Config, s: State, a: Action)
    requires !a.Connect? && !a.Disconnect?
    ensures var t := Apply(c, s, a);
            Reports(NewFrames(s, t)) + (if Owed(t.conn) then 1 else 0)
            <= (if Owed(s.conn) then 1 else 0) + if Overflows(c, s, a) then 1 else 0
  {
    var t := Apply(c, s, a);
    if |s.conn.wire| < |t.conn.wire| {
      assert NewFrames(s, t) == [t.conn.wire[|s.conn.wire|]];
      ReportsOfOne(t.conn.wire[|s.conn.wire|]);
    } else {
      assert NewFrames(s, t) == [];
    }
  }

  /** Within a connection there are never more reports than events that were dropped: one that was
      reported is not reported again. */
  lemma {:induction false} ReportsFollowDrops(c: Config, s: State, actions: seq<Action>)
    requires forall a <- actions :: !a.Connect? && !a.Disconnect?
    ensures ReportsSent(c, s, actions) + (if Owed(Run(c, s, actions).conn) then 1 else 0)
         <= (if Owed(s.conn) then 1 else 0) + Overflown(c, s, actions)
    decreases |actions|
  {
    if actions != [] {
      StepReports(c, s, actions[0]);
      ReportsFollowDrops(c, Apply(c, s, actions[0]), actions[1..]);
    }
  }

  // ------------------------------------------------------------------- progress --

  lemma {:induction false} FanOutUnheard(c: Config, s: State)
    requires s.conn == CLOSED
    ensures Leads(c, s, s.(unfanned := []))
    decreases |s.unfanned|
  {
    if s.unfanned == [] {
      LeadsNowhere(c, s);
    } else {
      var t := Apply(c, s, FanOut(0));
      LeadsOne(c, s, FanOut(0));
      assert t == s.(unfanned := Without(s.unfanned, 0)) by { assert s.hops + [] == s.hops; }
      FanOutUnheard(c, t);
      LeadsOn(c, s, t, s.(unfanned := []));
    }
  }

  /** A connection in its replay, to which nothing else is on its way. */
  ghost predicate Replaying(s: State) {
    && Increasing(s.log) && s.conn.stage == Reading && s.client.open && !Told(s)
    && s.conn.queue == [] && s.conn.dropped == 0 && s.hops == [] && s.unfanned == []
  }

  /** One read and one send. */
  lemma ReplayRound(c: Config, s: State) returns (v: State)
    requires Sized(c) && Replaying(s)
    ensures Leads(c, s, v) && !Told(v)
    ensures v == s.(conn := s.conn.(stage := v.conn.stage, delivered := v.conn.delivered, wire := v.conn.wire))
    ensures v.conn.stage == Reading || v.conn.stage == SendingMark || v.conn.stage == Idle
    ensures v.conn.stage == Reading ==> |After(c, s.log, v.conn.delivered)| < |After(c, s.log, s.conn.delivered)|
  {
    var u := Apply(c, s, Read);
    v := Apply(c, u, Sent);
    LeadsOne(c, s, Read);
    LeadsOneMore(c, s, u, Sent);
    ReadIsNotTold(c, s);
    NotToldYet(c, u);
    if v.conn.stage == Reading {
      ChunkShortens(c, s);
    }
  }

  lemma ReadIsNotTold(c: Config, s: State)
    requires !Told(s) && s.conn.stage == Reading
    ensures !Told(Apply(c, s, Read))
  {
    var t := Apply(c, s, Read);
    forall f <- t.conn.wire ensures !f.DroppedMark? {
      assert f in s.conn.wire || f == t.conn.wire[|t.conn.wire| - 1];
    }
  }

  lemma NotToldYet(c: Config, s: State)
    requires !Told(s) && s.conn.stage != SendingOne
    ensures !Told(Apply(c, s, Sent))
  {
    var t := Apply(c, s, Sent);
    forall f <- t.conn.wire ensures !f.DroppedMark? {
      assert f in s.conn.wire || f == t.conn.wire[|t.conn.wire| - 1];
    }
  }

  lemma ChunkShortens(c: Config, s: State)
    requires Sized(c) && Increasing(s.log) && s.conn.stage == Reading && After(c, s.log, s.conn.delivered) != []
    ensures var v := Apply(c, Apply(c, s, Read), Sent);
            |After(c, s.log, v.conn.delivered)| < |After(c, s.log, s.conn.delivered)|
  {
    WantedStaysIncreasing(c, s.log);
    var batch := Since(c, s.log, s.conn.delivered, c.chunk);
    assert batch == After(c, s.log, s.conn.delivered)[..|batch|];
    Advance(Wanted(c, s.log), s.conn.delivered, |batch|);
  }

  /** The replay comes to its end, chunk by chunk. */
  lemma {:induction false} ReplayEnds(c: Config, s: State) returns (t: State)
    requires Sized(c) && Replaying(s)
    ensures Leads(c, s, t) && !Told(t)
    ensures t == s.(conn := s.conn.(stage := Idle, delivered := t.conn.delivered, wire := t.conn.wire))
    decreases |After(c, s.log, s.conn.delivered)|
  {
    var v := ReplayRound(c, s);
    if v.conn.stage == Reading {
      t := ReplayEnds(c, v);
      LeadsOn(c, s, v, t);
    } else if v.conn.stage == SendingMark {
      t := Apply(c, v, Sent);
      LeadsOneMore(c, s, v, Sent);
      NotToldYet(c, v);
    } else {
      t := v;
    }
  }

  /** Everything on the wire is received. */
  lemma {:induction false} WireEmpties(c: Config, s: State) returns (t: State)
    requires !Told(s)
    ensures Leads(c, s, t) && t.client.open && t == s.(conn := s.conn.(wire := []), client := t.client)
    decreases |s.conn.wire|
  {
    if s.conn.wire == [] {
      LeadsNowhere(c, s);
      t := s;
    } else {
      var u := Apply(c, s, Receive);
      LeadsOne(c, s, Receive);
      StillOpen(c, s);
      t := WireEmpties(c, u);
      LeadsOn(c, s, u, t);
    }
  }

  lemma {:induction false} StaysOpen(b: Client, events: seq<Event>)
    ensures ApplyEvents(b, events).open == b.open
  {
    if events != [] {
      StaysOpen(b, events[..|events| - 1]);
    }
  }

  lemma StillOpen(c: Config, s: State)
    requires !Told(s) && s.conn.wire != []
    ensures !Told(Apply(c, s, Receive))
  {
    var f := s.conn.wire[0];
    assert f in s.conn.wire;
    if f.Batch? { StaysOpen(s.client, f.events); }
    forall g <- s.conn.wire[1..] ensures !g.DroppedMark? { assert g in s.conn.wire; }
  }

  lemma LeadsKeepsInv(c: Config, s: State, t: State)
    requires Sized(c) && Inv(c, s) && Leads(c, s, t)
    ensures Inv(c, t)
  {
    var actions :| Safe(c, s, actions) && Run(c, s, actions) == t;
    RunKeepsInv(c, s, actions);
  }

  /** The connection ends, nobody hears of what is still to be fanned out, and a new one begins. */
  lemma Restarted(c: Config, s: State) returns (t: State)
    requires Increasing(s.log)
    ensures Leads(c, s, t) && Replaying(t) && t.log == s.log
  {
    var closed := Apply(c, s, Disconnect);
    LeadsOne(c, s, Disconnect);
    FanOutUnheard(c, closed);
    var quiet := closed.(unfanned := []);
    LeadsOn(c, s, closed, quiet);
    t := Apply(c, quiet, Connect);
    LeadsOneMore(c, s, quiet, Connect);
  }

  /** From every state a client can catch up: there is a course of events without a hazard after
      which it is live and has every matching row of the log. */
  lemma CanAlwaysCatchUp(c: Config, s: State) returns (t: State)
    requires Sized(c) && Inv(c, s)
    ensures Leads(c, s, t) && CaughtUp(t) && t.log == s.log && t.client.applied == Wanted(c, s.log)
  {
    var replaying := Restarted(c, s);
    var live := ReplayEnds(c, replaying);
    LeadsOn(c, s, replaying, live);
    t := WireEmpties(c, live);
    LeadsOn(c, s, live, t);
    LeadsKeepsInv(c, s, t);
    InvMeansPrefix(c, t);
  }

  /** And a live client that has caught up gets the next matching row at once. */
  lemma LiveDelivers(c: Config, s: State, e: Event) returns (t: State)
    requires Sized(c) && Inv(c, s) && CaughtUp(s) && LastSeq(s.log) < e.number
    requires (c.run.Some? ==> e.run == c.run) && (c.repo.Some? ==> e.repo == c.repo)
    ensures Leads(c, s, t) && CaughtUp(t) && t.log == s.log + [e]
    ensures t.client.applied == s.client.applied + [e] && t.client.cursor == e.number
  {
    CursorIsWithin(c, s);
    var u := RowIsQueued(c, s, e);
    t := RowIsApplied(c, u, e);
    LeadsOn(c, s, u, t);
    assert t.conn == s.conn.(delivered := e.number);
  }

  lemma RowIsQueued(c: Config, s: State, e: Event) returns (t: State)
    requires Sized(c) && s.conn.stage == Idle && s.conn.queue == [] && s.hops == [] && s.unfanned == []
    requires LastSeq(s.log) < e.number && Wants(c, e)
    ensures Leads(c, s, t) && t == s.(log := s.log + [e], conn := s.conn.(queue := [e]))
  {
    var s1 := Apply(c, s, Insert(e));
    var s2 := Apply(c, s1, FanOut(0));
    LeadsOne(c, s, Insert(e));
    LeadsOneMore(c, s, s1, FanOut(0));
    assert s1.unfanned == [e] && s2.hops == [e] && s2.unfanned == [];
    OnlyOneComing(c, s2, e);
    t := Apply(c, s2, Offer(0));
    LeadsOneMore(c, s, s2, Offer(0));
  }

  lemma OnlyOneComing(c: Config, s: State, e: Event)
    requires s.hops == [e] && s.unfanned == [] && |s.conn.queue| < c.capacity
    ensures !Hazard(c, s, Offer(0))
  {
    forall x <- OnTheWay(c, s) ensures x == e { assert x in s.hops + s.unfanned; }
  }

  lemma RowIsApplied(c: Config, s: State, e: Event) returns (t: State)
    requires s.conn.stage == Idle && s.conn.queue == [e] && s.conn.wire == [] && s.conn.dropped == 0
    requires s.client.open && s.conn.delivered < e.number && s.client.cursor < e.number
    ensures Leads(c, s, t)
    ensures t == s.(conn := s.conn.(queue := [], delivered := e.number),
                    client := s.client.(cursor := e.number, applied := s.client.applied + [e]))
  {
    var s1 := Apply(c, s, Take);
    var s2 := Apply(c, s1, Sent);
    LeadsOne(c, s, Take);
    LeadsOneMore(c, s, s1, Sent);
    t := Apply(c, s2, Receive);
    LeadsOneMore(c, s, s2, Receive);
    assert s2.conn.wire == [One(e)];
  }

  lemma CursorIsWithin(c: Config, s: State)
    requires Inv(c, s) && CaughtUp(s)
    ensures s.client.cursor == s.conn.delivered <= LastSeq(s.log)
  {
  }
}
