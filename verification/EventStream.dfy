/**
 The event socket: subscribe, replay the log in chunks, then go live.

 One client follows one filtered view of the append-only log through any number of
 connections. The server's coroutine is cut at its awaits: a frame is on the wire
 when its send starts, and anything may happen before the send is over. Inserting a
 row, fanning it out and offering it are three steps, so a row can be read by a
 replay and still arrive through the queue afterwards, and an emitter on the loop can
 overtake one on another thread: any waiting event may be the next to be fanned out,
 and any event on its way the next to be offered.
 */
module EventStream {
  import opened Options

  /** A record. Rows of the log carry their positive `seq`, log lines carry 0. */
  datatype Event = Event(number: nat, run: Option<string>, repo: Option<string>)

  datatype Config = Config(run: Option<string>, repo: Option<string>, capacity: nat, chunk: nat)

  /** The limits of the queue and of a replay chunk are positive. */
  predicate Sized(c: Config) {
    c.capacity > 0 && c.chunk > 0
  }

  datatype Frame = Batch(events: seq<Event>) | LiveMark(cursor: nat) | One(event: Event) | DroppedMark(cursor: nat)

  datatype Stage = Closed | Reading | SendingBatch(batch: seq<Event>) | SendingMark | Idle | SendingOne | SendingDrop

  /** The server's end of a socket: the coroutine's place and cursor, its subscription, and
      the frames sent but not received. */
  datatype Conn = Conn(stage: Stage, delivered: nat, queue: seq<Event>, dropped: nat, wire: seq<Frame>)

  /** The browser's end: `applied` are the rows handed to the page. */
  datatype Client = Client(cursor: nat, applied: seq<Event>, open: bool)

  /** `unfanned` are inserted or published and not fanned out yet; `hops` are offers that
      wait for the loop. */
  datatype State = State(log: seq<Event>, unfanned: seq<Event>, hops: seq<Event>, conn: Conn, client: Client)

  datatype Action =
    | Insert(event: Event)
    | Publish(event: Event)
    | FanOut(i: nat)
    | Offer(i: nat)
    | Connect
    | Read
    | Sent
    | Take
    | Receive
    | Disconnect

  // ------------------------------------------------------------ the log view --

  /** `Subscription.wants`, and the WHERE clause of `since`. */
  predicate Wants(c: Config, e: Event) {
    (c.run.Some? ==> e.run == c.run) && (c.repo.Some? ==> e.repo == c.repo)
  }

  function Wanted(c: Config, log: seq<Event>): seq<Event> {
    if log == [] then []
    else Wanted(c, log[..|log| - 1]) + if Wants(c, log[|log| - 1]) then [log[|log| - 1]] else []
  }

  /** The events of a list with a sequence number beyond a cursor. */
  function Beyond(events: seq<Event>, cursor: nat): seq<Event> {
    if events == [] then []
    else Beyond(events[..|events| - 1], cursor)
         + if cursor < events[|events| - 1].number then [events[|events| - 1]] else []
  }

  function UpTo(events: seq<Event>, cursor: nat): seq<Event> {
    if events == [] then []
    else UpTo(events[..|events| - 1], cursor)
         + if events[|events| - 1].number <= cursor then [events[|events| - 1]] else []
  }

  /** The rows a client with this cursor has still to see, and those it must have seen. */
  function After(c: Config, log: seq<Event>, cursor: nat): seq<Event> {
    Beyond(Wanted(c, log), cursor)
  }

  function Seen(c: Config, log: seq<Event>, cursor: nat): seq<Event> {
    UpTo(Wanted(c, log), cursor)
  }

  /** `EventBus.since`: the rows after a cursor, oldest first, at most `limit`. */
  function Since(c: Config, log: seq<Event>, cursor: nat, limit: nat): seq<Event> {
    var rows := After(c, log, cursor);
    if |rows| <= limit then rows else rows[..limit]
  }

  function LastSeq(log: seq<Event>): nat {
    if log == [] then 0 else log[|log| - 1].number
  }

  // ----------------------------------------------------------------- the steps --

  function OfferTo(c: Config, k: Conn, e: Event): Conn {
    if |k.queue| < c.capacity then k.(queue := k.queue + [e]) else k.(dropped := k.dropped + 1)
  }

  function ReadChunk(c: Config, k: Conn, log: seq<Event>): Conn {
    var batch := Since(c, log, k.delivered, c.chunk);
    if batch == [] then k.(stage := SendingMark, wire := k.wire + [LiveMark(k.delivered)])
    else k.(stage := SendingBatch(batch), wire := k.wire + [Batch(batch)])
  }

  /** A send is over and the coroutine runs to its next await. */
  function AfterSend(c: Config, k: Conn): Conn {
    match k.stage
    case SendingBatch(batch) =>
      if batch == [] then k
      else
        var delivered := batch[|batch| - 1].number;
        if |batch| < c.chunk
        then k.(stage := SendingMark, delivered := delivered, wire := k.wire + [LiveMark(delivered)])
        else k.(stage := Reading, delivered := delivered)
    case SendingMark => k.(stage := Idle)
    case SendingOne =>
      if k.dropped > 0 then k.(stage := SendingDrop, wire := k.wire + [DroppedMark(k.delivered)])
      else k.(stage := Idle)
    case SendingDrop => k.(stage := Idle, dropped := 0)
    case _ => k
  }

  function TakeNext(k: Conn): Conn
    requires k.queue != []
  {
    var e := k.queue[0];
    if 0 < e.number <= k.delivered then k.(queue := k.queue[1..])
    else k.(stage := SendingOne, delivered := if e.number > 0 then e.number else k.delivered,
            queue := k.queue[1..], wire := k.wire + [One(e)])
  }

  function ApplyEvent(b: Client, e: Event): Client {
    b.(cursor := if b.cursor < e.number then e.number else b.cursor,
       applied := if e.number > 0 then b.applied + [e] else b.applied)
  }

  function ApplyEvents(b: Client, events: seq<Event>): Client {
    if events == [] then b
    else ApplyEvent(ApplyEvents(b, events[..|events| - 1]), events[|events| - 1])
  }

  /** `socket.onmessage`; nothing is delivered any more once the page has closed the socket. */
  function OnFrame(b: Client, f: Frame): Client {
    if !b.open then b
    else match f
      case LiveMark(cursor) => b.(cursor := if b.cursor < cursor then cursor else b.cursor)
      case DroppedMark(_) => b.(open := false)
      case Batch(events) => ApplyEvents(b, events)
      case One(e) => ApplyEvent(b, e)
  }

  function Without(events: seq<Event>, i: nat): seq<Event>
    requires i < |events|
  {
    events[..i] + events[i + 1..]
  }

  const CLOSED := Conn(Closed, 0, [], 0, [])

  function Apply(c: Config, s: State, a: Action): State {
    match a
    case Insert(e) =>
      if LastSeq(s.log) < e.number then s.(log := s.log + [e], unfanned := s.unfanned + [e]) else s
    case Publish(e) => if e.number == 0 then s.(unfanned := s.unfanned + [e]) else s
    case FanOut(i) =>
      if i >= |s.unfanned| then s
      else s.(unfanned := Without(s.unfanned, i),
              hops := s.hops + if s.conn.stage != Closed && Wants(c, s.unfanned[i]) then [s.unfanned[i]] else [])
    case Offer(i) =>
      if i >= |s.hops| then s else s.(hops := Without(s.hops, i), conn := OfferTo(c, s.conn, s.hops[i]))
    case Connect =>
      if s.conn.stage == Closed
      then s.(hops := [], conn := Conn(Reading, s.client.cursor, [], 0, []), client := s.client.(open := true))
      else s
    case Read => if s.conn.stage == Reading then s.(conn := ReadChunk(c, s.conn, s.log)) else s
    case Sent => s.(conn := AfterSend(c, s.conn))
    case Take => if s.conn.stage == Idle && s.conn.queue != [] then s.(conn := TakeNext(s.conn)) else s
    case Receive =>
      if s.conn.wire == [] then s
      else s.(conn := s.conn.(wire := s.conn.wire[1..]), client := OnFrame(s.client, s.conn.wire[0]))
    case Disconnect => s.(hops := [], conn := CLOSED, client := s.client.(open := false))
  }

  function Run(c: Config, s: State, actions: seq<Action>): State
    decreases |actions|
  {
    if actions == [] then s else Run(c, Apply(c, s, actions[0]), actions[1..])
  }

  const START := State([], [], [], CLOSED, Client(0, [], false))

  // ------------------------------------------------------------ the two hazards --

  /** The cursor behind every frame whose send has started. */
  function Committed(k: Conn): nat {
    if k.stage.SendingBatch? && k.stage.batch != [] then k.stage.batch[|k.stage.batch| - 1].number else k.delivered
  }

  /** No further read of the log will follow in this connection. */
  predicate PastReplay(c: Config, k: Conn) {
    match k.stage
    case Closed => false
    case Reading => false
    case SendingBatch(batch) => |batch| < c.chunk
    case _ => true
  }

  predicate Fresh(e: Event, cursor: nat) {
    e.number == 0 || cursor < e.number
  }

  /** The client will be told to reconnect before it applies anything else. */
  predicate Told(s: State) {
    !s.client.open || exists f <- s.conn.wire :: f.DroppedMark?
  }

  /** The connection is on its own: it will not read the log again, nor be told to. */
  predicate Alone(c: Config, s: State) {
    PastReplay(c, s.conn) && !Told(s)
  }

  predicate Due(c: Config, e: Event, cursor: nat) {
    Wants(c, e) && cursor < e.number
  }

  /** The rows on their way to the queue that the client has still to see. */
  function OnTheWay(c: Config, s: State): set<Event> {
    set e <- s.hops + s.unfanned | Due(c, e, Committed(s.conn))
  }

  /** An older row is still on its way. */
  predicate Older(c: Config, s: State, e: Event) {
    exists x <- OnTheWay(c, s) :: x.number < e.number
  }

  predicate AllStale(queue: seq<Event>, cursor: nat) {
    forall e <- queue :: !Fresh(e, cursor)
  }

  /** An event is being sent, or one that will be sent is in the queue. */
  predicate Busy(k: Conn) {
    k.stage == SendingOne || !AllStale(k.queue, Committed(k))
  }

  /** A row overflows with nothing before it that will be sent: the next check for drops
      comes only after a later row has gone out. */
  predicate Blind(c: Config, s: State, i: nat) {
    && i < |s.hops| && Alone(c, s) && Due(c, s.hops[i], Committed(s.conn))
    && |s.conn.queue| >= c.capacity && !Busy(s.conn) && !Older(c, s, s.hops[i])
  }

  /** A row is queued ahead of an older one, and no report of a drop is coming. */
  predicate Overtakes(c: Config, s: State, i: nat) {
    && i < |s.hops| && Alone(c, s) && Due(c, s.hops[i], Committed(s.conn))
    && |s.conn.queue| < c.capacity && Older(c, s, s.hops[i]) && !(s.conn.dropped > 0 && Busy(s.conn))
  }

  /** The steps that can lose a row: exactly these, by `EventResults.HazardsExactly`. */
  predicate Hazard(c: Config, s: State, a: Action) {
    a.Offer? && (Blind(c, s, a.i) || Overtakes(c, s, a.i))
  }

  predicate Safe(c: Config, s: State, actions: seq<Action>)
    decreases |actions|
  {
    actions == [] || (!Hazard(c, s, actions[0]) && Safe(c, Apply(c, s, actions[0]), actions[1..]))
  }

  // ------------------------------------------------------------ the invariant --

  ghost predicate Increasing(events: seq<Event>) {
    && (forall i :: 0 <= i < |events| ==> 0 < events[i].number)
    && (forall i, j :: 0 <= i < j < |events| ==> events[i].number < events[j].number)
  }

  /** The client's cursor after a frame. */
  function NextCursor(cursor: nat, f: Frame): nat {
    match f
    case One(e) => if e.number == 0 then cursor else e.number
    case Batch(events) => LastSeq(events)
    case _ => cursor
  }

  /** The frame holds exactly the rows that follow the cursor, up to its own last one. */
  ghost predicate Fits(rows: seq<Event>, cursor: nat, f: Frame) {
    match f
    case LiveMark(m) => m == cursor
    case DroppedMark(_) => false
    case One(e) => e.number > 0 ==> cursor < e.number && UpTo(rows, e.number) == UpTo(rows, cursor) + [e]
    case Batch(events) =>
      && events != [] && Increasing(events) && cursor < events[0].number
      && UpTo(rows, LastSeq(events)) == UpTo(rows, cursor) + events
  }

  function EndCursor(cursor: nat, wire: seq<Frame>): nat
    decreases |wire|
  {
    if wire == [] then cursor else EndCursor(NextCursor(cursor, wire[0]), wire[1..])
  }

  /** Received in order, the frames continue the client's view without gap or repeat,
      at least until one of them tells it to reconnect. */
  ghost predicate Readable(rows: seq<Event>, cursor: nat, wire: seq<Frame>)
    decreases |wire|
  {
    wire == [] || wire[0].DroppedMark?
    || (Fits(rows, cursor, wire[0]) && Readable(rows, NextCursor(cursor, wire[0]), wire[1..]))
  }

  /** What the client has still to see: the rows due after its cursor, the queue, the rows on
      their way to it, the number of drops to report, and whether an event is being sent. */
  datatype Backlog = Backlog(
    due: seq<Event>, queue: seq<Event>, cursor: nat, way: set<Event>, dropped: nat, sending: bool)

  function BacklogOf(c: Config, s: State): Backlog {
    var d := Committed(s.conn);
    Backlog(After(c, s.log, d), s.conn.queue, d, OnTheWay(c, s), s.conn.dropped, s.conn.stage == SendingOne)
  }

  /** What is due is queued in order, up to some row, and the rest is on its way. */
  ghost predicate Splits(due: seq<Event>, queued: seq<Event>, way: set<Event>) {
    queued <= due && forall e :: e in way <==> e in due[|queued|..]
  }

  /** Nothing is lost or out of order. */
  ghost predicate Whole(b: Backlog) {
    Splits(b.due, Beyond(b.queue, b.cursor), b.way)
  }

  /** The queue's first event that will be sent, at `i`, is a line or the next row due. */
  ghost predicate NextOut(b: Backlog, i: nat) {
    && i < |b.queue| && AllStale(b.queue[..i], b.cursor) && Fresh(b.queue[i], b.cursor)
    && (b.queue[i].number > 0 ==> b.due != [] && b.due[0] == b.queue[i])
  }

  /** Only stale rows are queued, and the next row due is on its way. */
  predicate NextIsComing(b: Backlog) {
    AllStale(b.queue, b.cursor) && b.due != [] && b.due[0] in b.way
  }

  /** Something is lost or out of order, but the next event to go out precedes it and is
      followed by a check for drops. */
  ghost predicate Saved(b: Backlog) {
    b.dropped > 0 && (b.sending || (exists i: nat :: NextOut(b, i)) || NextIsComing(b))
  }

  /** Every row on its way is in the log. */
  predicate Recorded(events: seq<Event>, log: seq<Event>) {
    forall e <- events :: e.number > 0 ==> e in log
  }

  /** No row is twice on its way. */
  ghost predicate Once(hops: seq<Event>, unfanned: seq<Event>) {
    forall e: Event :: e.number > 0 ==> multiset(hops)[e] + multiset(unfanned)[e] <= 1
  }

  predicate AllWanted(c: Config, events: seq<Event>) {
    forall e <- events :: Wants(c, e)
  }

  /** The client has seen the rows up to its cursor, and what is on the wire continues them. */
  ghost predicate InView(c: Config, log: seq<Event>, client: Client, wire: seq<Frame>) {
    && client.applied == Seen(c, log, client.cursor) && client.cursor <= LastSeq(log)
    && (client.open ==> Readable(Wanted(c, log), client.cursor, wire))
  }

  /** What holds of the log, the records on their way and the client. */
  ghost predicate Base(c: Config, s: State) {
    && Increasing(s.log)
    && Recorded(s.unfanned, s.log) && Recorded(s.hops, s.log) && Recorded(s.conn.queue, s.log)
    && Once(s.hops, s.unfanned)
    && AllWanted(c, s.hops) && AllWanted(c, s.conn.queue)
    && InView(c, s.log, s.client, s.conn.wire)
    && (s.client.open ==> s.conn.stage != Closed)
    && (s.conn.stage.SendingBatch? ==> s.conn.stage.batch != [])
    && (s.conn.stage == SendingDrop ==> Told(s))
  }

  /** What holds while the client has not been told to reconnect. */
  ghost predicate Flow(c: Config, s: State) {
    && Committed(s.conn) <= LastSeq(s.log)
    && EndCursor(s.client.cursor, s.conn.wire) == Committed(s.conn)
    && (PastReplay(c, s.conn) ==> Whole(BacklogOf(c, s)) || Saved(BacklogOf(c, s)))
  }

  ghost predicate Inv(c: Config, s: State) {
    Base(c, s) && (!Told(s) ==> Flow(c, s))
  }
}
