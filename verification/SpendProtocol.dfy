/**
 The reserve / call / record / release protocol of the budget ledger, as a state
 machine over its atomic steps.

 `reserve` runs under a lock, but `record` inserts its spend row without that lock
 and releases only afterwards. Between any two reads of one `reserve`, rows may
 land, reservations may be released and midnight may pass. The steps below are
 split exactly there, so a run of events is an arbitrary interleaving of any
 number of calling threads.
 */
module SpendProtocol {
  import opened Options

  /** Microseconds in a UTC day. */
  const DAY: nat := 86_400_000_000

  datatype Budget = Budget(total: real, perRun: real, perRepoDaily: real)

  datatype Reservation = Reservation(id: nat, usd: real, run: Option<string>, repo: Option<string>)

  /** The columns of one `llm_spend` row that the caps look at. */
  datatype Row = Row(ts: nat, run: Option<string>, repo: Option<string>, usd: real)

  /** The WHERE clause of a spend query; a missing field does not restrict. */
  datatype Filter = Filter(run: Option<string>, repo: Option<string>, since: Option<nat>, until: Option<nat>)

  /** What a cap is about. A daily cap concerns one repository on one UTC day. */
  datatype Scope = Total | PerRun(run: string) | Daily(repo: string, day: nat)

  /** Where a held reservation stands: the provider is running, the answer has been
      priced and time-stamped but its row is not inserted yet, the row is in, or the
      provider raised. */
  datatype Phase = Calling | Stamped(ts: nat, usd: real) | Recorded | Failed

  /** The one `reserve` inside the lock, with the commitments it has read so far. */
  datatype Progress = Progress(
    usd: real, run: Option<string>, repo: Option<string>,
    total: Option<real>, since: Option<nat>, daily: Option<real>, perRun: Option<real>)

  /** `rows`, `held` and `next` are the ledger's own state. `phase` is a ghost of the
      protocol: how far the owner of each held reservation has got. */
  datatype State = State(
    now: nat, rows: seq<Row>, held: map<nat, Reservation>, next: nat,
    phase: map<nat, Phase>, reserving: Option<Progress>)

  datatype Event =
    | Tick(now: nat)
    | Begin(usd: real, run: Option<string>, repo: Option<string>)
    | ReadTotal
    | ReadClock
    | ReadDaily
    | ReadRun
    | Decide
    | Return(id: nat, cost: real)
    | Raise(id: nat)
    | Insert(id: nat)
    | Release(id: nat)
    | CacheHit(ts: nat, run: Option<string>, repo: Option<string>)

  // ------------------------------------------------------------------ sums --

  function Day(ts: nat): nat { ts / DAY }

  function DayStart(now: nat): nat { now - now % DAY }

  predicate Agrees(wanted: Option<string>, actual: Option<string>) {
    wanted.Some? ==> actual == wanted
  }

  predicate Selects(f: Filter, row: Row) {
    && Agrees(f.run, row.run)
    && Agrees(f.repo, row.repo)
    && (f.since.Some? ==> f.since.value <= row.ts)
    && (f.until.Some? ==> row.ts < f.until.value)
  }

  /** `SELECT COALESCE(SUM(usd), 0) FROM llm_spend WHERE ...` */
  function Spent(rows: seq<Row>, f: Filter): real {
    if rows == [] then 0.0
    else Spent(rows[..|rows| - 1], f) + if Selects(f, rows[|rows| - 1]) then rows[|rows| - 1].usd else 0.0
  }

  /** The sum of the held reservations with an id of at most `n`, restricted to a run and a repository. */
  function HeldUpTo(held: map<nat, Reservation>, n: nat, run: Option<string>, repo: Option<string>): real {
    if n == 0 then 0.0
    else HeldUpTo(held, n - 1, run, repo)
         + if n in held && Agrees(run, held[n].run) && Agrees(repo, held[n].repo) then held[n].usd else 0.0
  }

  function Held(s: State, run: Option<string>, repo: Option<string>): real {
    HeldUpTo(s.held, s.next, run, repo)
  }

  /** Every row that a cap counts. */
  function ScopeFilter(scope: Scope): Filter {
    match scope
    case Total => Filter(None, None, None, None)
    case PerRun(run) => Filter(Some(run), None, None, None)
    case Daily(repo, day) => Filter(None, Some(repo), Some(day * DAY), Some((day + 1) * DAY))
  }

  function Cap(b: Budget, scope: Scope): real {
    match scope
    case Total => b.total
    case PerRun(_) => b.perRun
    case Daily(_, _) => b.perRepoDaily
  }

  /** True if a row for this call can still be inserted and would count against `scope`. */
  predicate MayLand(r: Reservation, phase: Phase, now: nat, scope: Scope) {
    && (phase.Calling? || phase.Stamped?)
    && match scope
       case Total => true
       case PerRun(run) => r.run == Some(run)
       case Daily(repo, day) =>
         r.repo == Some(repo) && if phase.Calling? then Day(now) <= day else Day(phase.ts) == day
  }

  function PendingUpTo(s: State, n: nat, scope: Scope): real
    requires s.held.Keys == s.phase.Keys
  {
    if n == 0 then 0.0
    else PendingUpTo(s, n - 1, scope)
         + if n in s.held && MayLand(s.held[n], s.phase[n], s.now, scope) then s.held[n].usd else 0.0
  }

  /** Recorded spend plus everything reserved that is not recorded yet. */
  function Exposure(s: State, scope: Scope): real
    requires s.held.Keys == s.phase.Keys
  {
    Spent(s.rows, ScopeFilter(scope)) + PendingUpTo(s, s.next, scope)
  }

  // ----------------------------------------------------------------- steps --

  predicate Complete(p: Progress) {
    && p.total.Some?
    && (p.repo.Some? ==> p.daily.Some?)
    && (p.run.Some? ==> p.perRun.Some?)
  }

  predicate Fits(b: Budget, p: Progress)
    requires Complete(p)
  {
    && p.total.value + p.usd <= b.total
    && (p.repo.Some? ==> p.daily.value + p.usd <= b.perRepoDaily)
    && (p.run.Some? ==> p.perRun.value + p.usd <= b.perRun)
  }

  function Admit(s: State, p: Progress): State {
    var id := s.next + 1;
    s.(next := id,
       held := s.held[id := Reservation(id, p.usd, p.run, p.repo)],
       phase := s.phase[id := Calling],
       reserving := None)
  }

  /** One atomic step. An event that is not possible in `s` changes nothing. */
  function Apply(b: Budget, s: State, e: Event): State {
    match e
    case Tick(now) => if s.now <= now then s.(now := now) else s
    case Begin(usd, run, repo) =>
      if s.reserving.None? then s.(reserving := Some(Progress(usd, run, repo, None, None, None, None))) else s
    case ReadTotal =>
      if s.reserving.Some? then
        var p := s.reserving.value;
        s.(reserving := Some(p.(total := Some(Spent(s.rows, Filter(None, None, None, None)) + Held(s, None, None)))))
      else s
    case ReadClock =>
      if s.reserving.Some? && s.reserving.value.repo.Some? then
        s.(reserving := Some(s.reserving.value.(since := Some(DayStart(s.now)), daily := None)))
      else s
    case ReadDaily =>
      if s.reserving.Some? && s.reserving.value.repo.Some? && s.reserving.value.since.Some? then
        var p := s.reserving.value;
        s.(reserving := Some(p.(daily := Some(
          Spent(s.rows, Filter(None, p.repo, p.since, None)) + Held(s, None, p.repo)))))
      else s
    case ReadRun =>
      if s.reserving.Some? && s.reserving.value.run.Some? then
        var p := s.reserving.value;
        s.(reserving := Some(p.(perRun := Some(Spent(s.rows, Filter(p.run, None, None, None)) + Held(s, p.run, None)))))
      else s
    case Decide =>
      if s.reserving.Some? && Complete(s.reserving.value) then
        if Fits(b, s.reserving.value) then Admit(s, s.reserving.value) else s.(reserving := None)
      else s
    case Return(id, cost) =>
      if id in s.phase && s.phase[id].Calling? then s.(phase := s.phase[id := Stamped(s.now, cost)]) else s
    case Raise(id) =>
      if id in s.phase && s.phase[id].Calling? then s.(phase := s.phase[id := Failed]) else s
    case Insert(id) =>
      if id in s.phase && id in s.held && s.phase[id].Stamped? then
        var r := s.held[id];
        s.(rows := s.rows + [Row(s.phase[id].ts, r.run, r.repo, s.phase[id].usd)], phase := s.phase[id := Recorded])
      else s
    case Release(id) =>
      // `release` takes the lock, so it waits while a `reserve` is inside it.
      if s.reserving.None? && id in s.phase && (s.phase[id].Recorded? || s.phase[id].Failed?) then
        s.(held := s.held - {id}, phase := s.phase - {id})
      else s
    case CacheHit(ts, run, repo) =>
      if ts <= s.now then s.(rows := s.rows + [Row(ts, run, repo, 0.0)]) else s
  }

  function Run(b: Budget, s: State, events: seq<Event>): State
    decreases |events|
  {
    if events == [] then s else Run(b, Apply(b, s, events[0]), events[1..])
  }

  /** The ledger before its first call: nothing held, and past spend within every cap. */
  ghost predicate Start(b: Budget, s: State) {
    && s.held == map[] && s.phase == map[] && s.reserving == None
    && (forall row <- s.rows :: 0.0 <= row.usd && row.ts <= s.now)
    && (forall scope :: Spent(s.rows, ScopeFilter(scope)) <= Cap(b, scope))
  }

  /** The one assumption about the provider: a call costs at most what was reserved for it. */
  predicate WithinReservation(s: State, e: Event) {
    match e
    case Begin(usd, _, _) => 0.0 <= usd
    case Return(id, cost) => id in s.held ==> 0.0 <= cost <= s.held[id].usd
    case _ => true
  }

  predicate Honest(b: Budget, s: State, events: seq<Event>)
    decreases |events|
  {
    events == [] || (WithinReservation(s, events[0]) && Honest(b, Apply(b, s, events[0]), events[1..]))
  }

  // ------------------------------------------------------------- invariant --

  ghost predicate Shape(s: State) {
    && s.held.Keys == s.phase.Keys
    && (forall row <- s.rows :: 0.0 <= row.usd && row.ts <= s.now)
    && (forall id <- s.held :: 1 <= id <= s.next && 0.0 <= s.held[id].usd)
    && (forall id <- s.phase :: s.phase[id].Stamped? ==>
          s.phase[id].ts <= s.now && 0.0 <= s.phase[id].usd <= s.held[id].usd)
  }

  /** Each commitment already read still bounds the exposure it was read for. */
  ghost predicate ReadsBound(s: State, p: Progress)
    requires s.held.Keys == s.phase.Keys
  {
    && 0.0 <= p.usd
    && (p.total.Some? ==> Exposure(s, Total) <= p.total.value)
    && (p.since.Some? ==> p.since.value <= s.now && p.since.value % DAY == 0)
    && (p.daily.Some? ==>
          && p.repo.Some? && p.since.Some?
          && forall day: nat :: Day(p.since.value) <= day ==> Exposure(s, Daily(p.repo.value, day)) <= p.daily.value)
    && (p.perRun.Some? ==> p.run.Some? && Exposure(s, PerRun(p.run.value)) <= p.perRun.value)
  }

  ghost predicate Inv(b: Budget, s: State) {
    && Shape(s)
    && (forall scope :: Exposure(s, scope) <= Cap(b, scope))
    && (s.reserving.Some? ==> ReadsBound(s, s.reserving.value))
  }

  // ------------------------------------------------------ lemmas about sums --

  lemma SpentAppend(rows: seq<Row>, row: Row, f: Filter)
    ensures Spent(rows + [row], f) == Spent(rows, f) + if Selects(f, row) then row.usd else 0.0
  {
    assert (rows + [row])[..|rows|] == rows;
  }

  lemma {:induction false} SpentMonotone(rows: seq<Row>, f: Filter, g: Filter)
    requires forall row <- rows :: 0.0 <= row.usd
    requires forall row <- rows :: Selects(f, row) ==> Selects(g, row)
    ensures 0.0 <= Spent(rows, f) <= Spent(rows, g)
  {
    if rows != [] {
      var last := rows[|rows| - 1];
      assert last in rows;
      SpentMonotone(rows[..|rows| - 1], f, g);
    }
  }

  /** Pending amounts compare term by term. */
  lemma {:induction false} PendingMonotone(s: State, t: State, n: nat, scope: Scope)
    requires s.held.Keys == s.phase.Keys && t.held.Keys == t.phase.Keys
    requires forall id <- s.held :: 0.0 <= s.held[id].usd
    requires forall id <- t.held :: id <= n && MayLand(t.held[id], t.phase[id], t.now, scope) ==>
               id in s.held && s.held[id] == t.held[id] && MayLand(s.held[id], s.phase[id], s.now, scope)
    ensures PendingUpTo(t, n, scope) <= PendingUpTo(s, n, scope)
  {
    if n > 0 {
      PendingMonotone(s, t, n - 1, scope);
    }
  }

  /** Pending amounts are part of what is held. */
  lemma {:induction false} PendingWithinHeld(s: State, n: nat, scope: Scope, run: Option<string>, repo: Option<string>)
    requires s.held.Keys == s.phase.Keys
    requires forall id <- s.held :: 0.0 <= s.held[id].usd
    requires forall id <- s.held :: MayLand(s.held[id], s.phase[id], s.now, scope) ==>
               Agrees(run, s.held[id].run) && Agrees(repo, s.held[id].repo)
    ensures 0.0 <= PendingUpTo(s, n, scope) <= HeldUpTo(s.held, n, run, repo)
  {
    if n > 0 {
      PendingWithinHeld(s, n - 1, scope, run, repo);
    }
  }

  /** Moving one id out of the pending phases takes exactly its amount away. */
  lemma {:induction false} PendingWithout(s: State, t: State, n: nat, id: nat, scope: Scope)
    requires s.held.Keys == s.phase.Keys && t.held == s.held && t.now == s.now
    requires id in s.held && t.phase == s.phase[id := Recorded]
    ensures PendingUpTo(t, n, scope)
         == PendingUpTo(s, n, scope)
            - if 1 <= id <= n && MayLand(s.held[id], s.phase[id], s.now, scope) then s.held[id].usd else 0.0
  {
    if n > 0 {
      PendingWithout(s, t, n - 1, id, scope);
    }
  }

  /** A day's filter selects exactly the rows stamped on that day. */
  lemma DayFilter(repo: string, day: nat, row: Row)
    ensures Selects(ScopeFilter(Daily(repo, day)), row) <==> row.repo == Some(repo) && Day(row.ts) == day
  {
    assert row.ts == DAY * (row.ts / DAY) + row.ts % DAY;
    if day * DAY <= row.ts < (day + 1) * DAY {
      assert row.ts / DAY == day;
    }
  }

  // ------------------------------------------------- what a step does to it --

  lemma DayMonotone(a: nat, b: nat)
    requires a <= b
    ensures Day(a) <= Day(b)
  {
  }

  /** The row a call inserts counts exactly where its reservation was pending. */
  lemma InsertedRowCounts(s: State, id: nat, scope: Scope)
    requires s.held.Keys == s.phase.Keys && id in s.held && s.phase[id].Stamped?
    ensures Selects(ScopeFilter(scope), Row(s.phase[id].ts, s.held[id].run, s.held[id].repo, s.phase[id].usd))
        <==> MayLand(s.held[id], s.phase[id], s.now, scope)
  {
    var row := Row(s.phase[id].ts, s.held[id].run, s.held[id].repo, s.phase[id].usd);
    if scope.Daily? {
      DayFilter(scope.repo, scope.day, row);
    }
  }

  lemma TickLowersExposure(b: Budget, s: State, now: nat, scope: Scope)
    requires Shape(s) && s.now <= now
    ensures Shape(Apply(b, s, Tick(now)))
    ensures Exposure(Apply(b, s, Tick(now)), scope) <= Exposure(s, scope)
  {
    DayMonotone(s.now, now);
    PendingMonotone(s, Apply(b, s, Tick(now)), s.next, scope);
  }

  /** A row takes the place of the hold it was reserved by, and costs no more. */
  lemma InsertLowersExposure(b: Budget, s: State, id: nat, scope: Scope)
    requires Shape(s) && id in s.held && s.phase[id].Stamped?
    ensures Shape(Apply(b, s, Insert(id)))
    ensures Exposure(Apply(b, s, Insert(id)), scope) <= Exposure(s, scope)
  {
    var t := Apply(b, s, Insert(id));
    var row := Row(s.phase[id].ts, s.held[id].run, s.held[id].repo, s.phase[id].usd);
    assert t == s.(rows := s.rows + [row], phase := s.phase[id := Recorded]);
    SpentAppend(s.rows, row, ScopeFilter(scope));
    PendingWithout(s, t, s.next, id, scope);
    InsertedRowCounts(s, id, scope);
  }

  lemma ReturnLowersExposure(b: Budget, s: State, id: nat, cost: real, scope: Scope)
    requires Shape(s) && id in s.held && s.phase[id].Calling? && 0.0 <= cost <= s.held[id].usd
    ensures Shape(Apply(b, s, Return(id, cost)))
    ensures Exposure(Apply(b, s, Return(id, cost)), scope) <= Exposure(s, scope)
  {
    PendingMonotone(s, Apply(b, s, Return(id, cost)), s.next, scope);
  }

  lemma LeavingLowersExposure(b: Budget, s: State, e: Event, scope: Scope)
    requires Shape(s) && (e.Raise? || e.Release?)
    ensures Shape(Apply(b, s, e))
    ensures Exposure(Apply(b, s, e), scope) <= Exposure(s, scope)
  {
    PendingMonotone(s, Apply(b, s, e), s.next, scope);
  }

  lemma CacheHitKeepsExposure(b: Budget, s: State, e: Event, scope: Scope)
    requires Shape(s) && e.CacheHit?
    ensures Shape(Apply(b, s, e))
    ensures Exposure(Apply(b, s, e), scope) <= Exposure(s, scope)
  {
    var t := Apply(b, s, e);
    PendingMonotone(s, t, s.next, scope);
    if t != s {
      SpentAppend(s.rows, Row(e.ts, e.run, e.repo, 0.0), ScopeFilter(scope));
      assert t.rows == s.rows + [Row(e.ts, e.run, e.repo, 0.0)];
    }
  }

  lemma ReadingKeepsExposure(s: State, t: State, scope: Scope)
    requires Shape(s) && t == s.(reserving := t.reserving)
    ensures Shape(t) && Exposure(t, scope) <= Exposure(s, scope)
  {
    PendingMonotone(s, t, s.next, scope);
  }

  /** Only an admission can raise an exposure: recording replaces a hold by at most its
      amount, and everything else, midnight included, can only lower it. */
  lemma NothingElseRaisesExposure(b: Budget, s: State, e: Event, scope: Scope)
    requires Shape(s) && WithinReservation(s, e)
    requires Apply(b, s, e).next == s.next
    ensures Shape(Apply(b, s, e))
    ensures Exposure(Apply(b, s, e), scope) <= Exposure(s, scope)
  {
    if Apply(b, s, e) != s {
      match e {
        case Tick(now) => TickLowersExposure(b, s, now, scope);
        case Insert(id) => InsertLowersExposure(b, s, id, scope);
        case Return(id, cost) => ReturnLowersExposure(b, s, id, cost, scope);
        case Raise(_) => LeavingLowersExposure(b, s, e, scope);
        case Release(_) => LeavingLowersExposure(b, s, e, scope);
        case CacheHit(_, _, _) => CacheHitKeepsExposure(b, s, e, scope);
        case _ => ReadingKeepsExposure(s, Apply(b, s, e), scope);
      }
    }
  }

  /** An admission raises an exposure by exactly what was asked for, where it counts. */
  lemma AdmissionRaisesBy(b: Budget, s: State, scope: Scope)
    requires Shape(s) && s.reserving.Some?
    ensures Admit(s, s.reserving.value).held.Keys == Admit(s, s.reserving.value).phase.Keys
    ensures var p := s.reserving.value;
            var t := Admit(s, p);
            Exposure(t, scope) == Exposure(s, scope)
              + if MayLand(t.held[t.next], Calling, s.now, scope) then p.usd else 0.0
  {
    var t := Admit(s, s.reserving.value);
    AdmittedPending(s, t, s.next, scope);
  }

  lemma {:induction false} AdmittedPending(s: State, t: State, n: nat, scope: Scope)
    requires s.held.Keys == s.phase.Keys && t.held.Keys == t.phase.Keys && t.now == s.now
    requires forall id :: id <= n ==> (id in s.held <==> id in t.held)
    requires forall id <- s.held :: id <= n ==> t.held[id] == s.held[id] && t.phase[id] == s.phase[id]
    ensures PendingUpTo(t, n, scope) == PendingUpTo(s, n, scope)
  {
    if n > 0 {
      AdmittedPending(s, t, n - 1, scope);
    }
  }

  /** What `reserve` reads for a scope, at the moment it reads it, bounds the exposure. */
  lemma TotalReadBounds(s: State)
    requires Shape(s)
    ensures Exposure(s, Total) <= Spent(s.rows, Filter(None, None, None, None)) + Held(s, None, None)
  {
    PendingWithinHeld(s, s.next, Total, None, None);
  }

  lemma RunReadBounds(s: State, run: string)
    requires Shape(s)
    ensures Exposure(s, PerRun(run)) <= Spent(s.rows, Filter(Some(run), None, None, None)) + Held(s, Some(run), None)
  {
    PendingWithinHeld(s, s.next, PerRun(run), Some(run), None);
  }

  lemma DailyReadBounds(s: State, repo: string, since: nat, day: nat)
    requires Shape(s) && since % DAY == 0 && Day(since) <= day
    ensures Exposure(s, Daily(repo, day))
         <= Spent(s.rows, Filter(None, Some(repo), Some(since), None)) + Held(s, None, Some(repo))
  {
    var wide := Filter(None, Some(repo), Some(since), None);
    assert since == DAY * Day(since);
    assert since <= day * DAY;
    SpentMonotone(s.rows, ScopeFilter(Daily(repo, day)), wide);
    PendingWithinHeld(s, s.next, Daily(repo, day), None, Some(repo));
  }

  lemma DayStartFacts(now: nat)
    ensures DayStart(now) <= now && DayStart(now) % DAY == 0 && Day(DayStart(now)) == Day(now)
  {
    assert now == DAY * (now / DAY) + now % DAY;
  }

  // ---------------------------------------------------------- main results --

  lemma StartIsSafe(b: Budget, s: State)
    requires Start(b, s)
    ensures Inv(b, s)
  {
    forall scope ensures Exposure(s, scope) <= Cap(b, scope) {
      PendingWithinHeld(s, s.next, scope, None, None);
      NothingHeld(s.next);
    }
  }

  lemma {:induction false} NothingHeld(n: nat)
    ensures HeldUpTo(map[], n, None, None) == 0.0
  {
    if n > 0 {
      NothingHeld(n - 1);
    }
  }

  lemma DecideKeepsInv(b: Budget, s: State)
    requires Inv(b, s)
    ensures Inv(b, Apply(b, s, Decide))
  {
    var t := Apply(b, s, Decide);
    if t.next == s.next {
      forall scope ensures Exposure(t, scope) <= Cap(b, scope) {
        NothingElseRaisesExposure(b, s, Decide, scope);
      }
    } else {
      var p := s.reserving.value;
      forall scope ensures Exposure(t, scope) <= Cap(b, scope) {
        AdmissionRaisesBy(b, s, scope);
        if scope.Daily? && p.repo == Some(scope.repo) && Day(s.now) <= scope.day {
          DayMonotone(p.since.value, s.now);
        }
      }
    }
  }

  lemma OthersLowerExposures(b: Budget, s: State, e: Event)
    requires Shape(s) && WithinReservation(s, e) && !e.Decide?
    ensures Shape(Apply(b, s, e))
    ensures forall scope :: Exposure(Apply(b, s, e), scope) <= Exposure(s, scope)
  {
    NothingElseRaisesExposure(b, s, e, Total);
    forall scope ensures Exposure(Apply(b, s, e), scope) <= Exposure(s, scope) {
      NothingElseRaisesExposure(b, s, e, scope);
    }
  }

  lemma StepKeepsInv(b: Budget, s: State, e: Event)
    requires Inv(b, s) && WithinReservation(s, e)
    ensures Inv(b, Apply(b, s, e))
  {
    if e.Decide? {
      DecideKeepsInv(b, s);
    } else {
      OthersLowerExposures(b, s, e);
      if Apply(b, s, e).reserving.Some? {
        ReadsStayBounds(b, s, e);
      }
    }
  }

  lemma ReadsStayBounds(b: Budget, s: State, e: Event)
    requires Inv(b, s) && WithinReservation(s, e) && !e.Decide?
    requires Apply(b, s, e).reserving.Some?
    requires Shape(Apply(b, s, e))
    requires forall scope :: Exposure(Apply(b, s, e), scope) <= Exposure(s, scope)
    ensures ReadsBound(Apply(b, s, e), Apply(b, s, e).reserving.value)
  {
    var t := Apply(b, s, e);
    var p := t.reserving.value;
    match e {
      case ReadTotal => TotalReadBounds(s);
      case ReadRun => if p.run.Some? { RunReadBounds(s, p.run.value); }
      case ReadClock => DayStartFacts(s.now);
      case ReadDaily =>
        if p.daily.Some? && t != s {
          forall day: nat | Day(p.since.value) <= day
            ensures Exposure(t, Daily(p.repo.value, day)) <= p.daily.value
          {
            DailyReadBounds(s, p.repo.value, p.since.value, day);
          }
        }
      case _ =>
    }
  }

  lemma {:induction false} RunKeepsInv(b: Budget, s: State, events: seq<Event>)
    requires Inv(b, s) && Honest(b, s, events)
    ensures Inv(b, Run(b, s, events))
    decreases |events|
  {
    if events != [] {
      StepKeepsInv(b, s, events[0]);
      RunKeepsInv(b, Apply(b, s, events[0]), events[1..]);
    }
  }

  /** Whatever the interleaving, recorded spend plus what may still be recorded stays
      within the total cap, within every run's cap and within every repository's cap for
      every UTC day; and once no call is in flight, no hold remains. */
  lemma EveryInterleavingKeepsTheCaps(b: Budget, s: State, events: seq<Event>)
    requires Start(b, s) && Honest(b, s, events)
    ensures var t := Run(b, s, events);
            && t.held.Keys == t.phase.Keys
            && (forall scope :: Exposure(t, scope) <= Cap(b, scope))
            && (forall scope :: Spent(t.rows, ScopeFilter(scope)) <= Cap(b, scope))
            && (t.phase == map[] ==> t.held == map[])
  {
    StartIsSafe(b, s);
    RunKeepsInv(b, s, events);
    var t := Run(b, s, events);
    forall scope ensures Spent(t.rows, ScopeFilter(scope)) <= Cap(b, scope) {
      assert Exposure(t, scope) <= Cap(b, scope);
      PendingIsNotNegative(t, t.next, scope);
    }
  }

  lemma {:induction false} PendingIsNotNegative(s: State, n: nat, scope: Scope)
    requires s.held.Keys == s.phase.Keys && forall id <- s.held :: 0.0 <= s.held[id].usd
    ensures 0.0 <= PendingUpTo(s, n, scope)
  {
    if n > 0 {
      PendingIsNotNegative(s, n - 1, scope);
    }
  }

  lemma {:induction false} RunOneMore(b: Budget, s: State, events: seq<Event>, e: Event)
    requires Honest(b, s, events) && WithinReservation(Run(b, s, events), e)
    ensures Honest(b, s, events + [e]) && Run(b, s, events + [e]) == Apply(b, Run(b, s, events), e)
    decreases |events|
  {
    if events == [] {
      assert [e][1..] == [];
    } else {
      RunOneMore(b, Apply(b, s, events[0]), events[1..], e);
      assert (events + [e])[1..] == events[1..] + [e];
    }
  }

  /** A hold whose row is in, or will never be. */
  predicate Lingers(phase: Phase) {
    phase.Recorded? || phase.Failed?
  }

  /** The sum of the holds that linger, restricted to a run. */
  function LingeringUpTo(s: State, n: nat, run: Option<string>): real
    requires s.held.Keys == s.phase.Keys
  {
    if n == 0 then 0.0
    else LingeringUpTo(s, n - 1, run)
         + if n in s.held && Lingers(s.phase[n]) && Agrees(run, s.held[n].run) then s.held[n].usd else 0.0
  }

  /** The cap of everything, or of one run. */
  function WholeScope(run: Option<string>): Scope {
    if run.Some? then PerRun(run.value) else Total
  }

  /** What is held is what is pending and what lingers. */
  lemma {:induction false} HeldIsPendingOrLingering(s: State, n: nat, run: Option<string>)
    requires s.held.Keys == s.phase.Keys
    ensures HeldUpTo(s.held, n, run, None) == PendingUpTo(s, n, WholeScope(run)) + LingeringUpTo(s, n, run)
  {
    if n > 0 {
      HeldIsPendingOrLingering(s, n - 1, run);
    }
  }

  lemma {:induction false} NothingLingers(s: State, n: nat, run: Option<string>)
    requires s.held.Keys == s.phase.Keys && forall id <- s.held :: Agrees(run, s.held[id].run) ==> !Lingers(s.phase[id])
    ensures LingeringUpTo(s, n, run) == 0.0
  {
    if n > 0 {
      NothingLingers(s, n - 1, run);
    }
  }

  /** Exactly how far `spent + held` is from an invariant: in every state that calls can bring
      about, it is the exposure plus the holds that linger. So it exceeds its cap by at most their
      sum, and not at all while none lingers. */
  lemma SpentPlusHeldExceedsBy(b: Budget, s: State, events: seq<Event>, run: Option<string>)
    requires Start(b, s) && Honest(b, s, events)
    ensures var t := Run(b, s, events);
            var sum := Spent(t.rows, ScopeFilter(WholeScope(run))) + Held(t, run, None);
            && t.held.Keys == t.phase.Keys
            && sum == Exposure(t, WholeScope(run)) + LingeringUpTo(t, t.next, run)
            && sum <= Cap(b, WholeScope(run)) + LingeringUpTo(t, t.next, run)
            && ((forall id <- t.held :: Agrees(run, t.held[id].run) ==> !Lingers(t.phase[id])) ==>
                sum <= Cap(b, WholeScope(run)))
  {
    var t := Run(b, s, events);
    EveryInterleavingKeepsTheCaps(b, s, events);
    assert Exposure(t, WholeScope(run)) <= Cap(b, WholeScope(run));
    HeldIsPendingOrLingering(t, t.next, run);
    if forall id <- t.held :: Agrees(run, t.held[id].run) ==> !Lingers(t.phase[id]) {
      NothingLingers(t, t.next, run);
    }
  }

  /** A lone call of one dollar under caps of one dollar, up to the provider's answer. */
  lemma LoneCall(b: Budget, s: State) returns (events: seq<Event>)
    requires b == Budget(1.0, 1.0, 1.0) && s == State(0, [], map[], 0, map[], None)
    ensures Honest(b, s, events)
    ensures Run(b, s, events)
            == State(0, [], map[1 := Reservation(1, 1.0, None, None)], 1, map[1 := Stamped(0, 1.0)], None)
  {
    var asked := Progress(1.0, None, None, None, None, None, None);
    var read := asked.(total := Some(0.0));
    events := [];
    RunOneMore(b, s, events, Begin(1.0, None, None));
    events := events + [Begin(1.0, None, None)];
    assert Run(b, s, events) == s.(reserving := Some(asked));
    RunOneMore(b, s, events, ReadTotal);
    events := events + [ReadTotal];
    assert Run(b, s, events) == s.(reserving := Some(read));
    RunOneMore(b, s, events, Decide);
    events := events + [Decide];
    assert Run(b, s, events) == Admit(s, read);
    RunOneMore(b, s, events, Return(1, 1.0));
    events := events + [Return(1, 1.0)];
  }

  /** Why the invariant needs the phase: a call that is recorded but not released is
      counted twice by `spent + held`, which may then exceed the cap. */
  lemma SpentPlusHeldIsNotAnInvariant()
    returns (b: Budget, s: State, events: seq<Event>)
    ensures Start(b, s) && Honest(b, s, events)
    ensures Spent(Run(b, s, events).rows, ScopeFilter(Total)) + Held(Run(b, s, events), None, None) > b.total
  {
    b := Budget(1.0, 1.0, 1.0);
    s := State(0, [], map[], 0, map[], None);
    events := LoneCall(b, s);
    RunOneMore(b, s, events, Insert(1));
    events := events + [Insert(1)];
    var t := Run(b, s, events);
    SpentAppend([], Row(0, None, None, 1.0), ScopeFilter(Total));
    assert t.rows == [] + [Row(0, None, None, 1.0)];
    assert HeldUpTo(t.held, 0, None, None) == 0.0;
    assert HeldUpTo(t.held, 1, None, None) == 1.0;
  }
}
