/**
 What a scope read is made of: the recorded spend and the holds, column by column.
 */
module SpendReads {
  import opened Options
  import opened SpendProtocol

  /** The spend of the rows that meet a condition. */
  function SumWhere(rows: seq<Row>, counts: Row -> bool): real {
    if rows == [] then 0.0
    else SumWhere(rows[..|rows| - 1], counts) + if counts(rows[|rows| - 1]) then rows[|rows| - 1].usd else 0.0
  }

  lemma {:induction false} SpentIs(rows: seq<Row>, f: Filter, counts: Row -> bool)
    requires forall row <- rows :: Selects(f, row) <==> counts(row)
    ensures Spent(rows, f) == SumWhere(rows, counts)
  {
    if rows != [] {
      assert rows[|rows| - 1] in rows;
      SpentIs(rows[..|rows| - 1], f, counts);
    }
  }

  /** The total counts every row, a run its own, and a repository and a day the rows of that
      repository stamped on that day. */
  lemma ScopesCount(rows: seq<Row>, run: string, repo: string, day: nat)
    ensures Spent(rows, ScopeFilter(Total)) == SumWhere(rows, row => true)
    ensures Spent(rows, ScopeFilter(PerRun(run))) == SumWhere(rows, (row: Row) => row.run == Some(run))
    ensures Spent(rows, ScopeFilter(Daily(repo, day)))
         == SumWhere(rows, (row: Row) => row.repo == Some(repo) && row.ts / DAY == day)
  {
    SpentIs(rows, ScopeFilter(Total), row => true);
    SpentIs(rows, ScopeFilter(PerRun(run)), (row: Row) => row.run == Some(run));
    forall row <- rows ensures Selects(ScopeFilter(Daily(repo, day)), row)
      <==> row.repo == Some(repo) && row.ts / DAY == day {
      DayFilter(repo, day, row);
    }
    SpentIs(rows, ScopeFilter(Daily(repo, day)), (row: Row) => row.repo == Some(repo) && row.ts / DAY == day);
  }

  /** While no row is stamped in the future, the rows since the start of the day are today's. */
  lemma {:induction false} SinceDayStartIsToday(rows: seq<Row>, repo: string, now: nat)
    requires forall row <- rows :: row.ts <= now
    ensures Spent(rows, Filter(None, Some(repo), Some(DayStart(now)), None))
            == Spent(rows, ScopeFilter(Daily(repo, Day(now))))
  {
    if rows != [] {
      var last := rows[|rows| - 1];
      assert last in rows;
      SinceDayStartIsToday(rows[..|rows| - 1], repo, now);
      DayFilter(repo, Day(now), last);
      TodayStarts(last.ts, now);
    }
  }

  lemma TodayStarts(ts: nat, now: nat)
    requires ts <= now
    ensures DayStart(now) <= ts <==> Day(ts) == Day(now)
  {
    assert now == DAY * (now / DAY) + now % DAY;
    assert ts == DAY * (ts / DAY) + ts % DAY;
    if DayStart(now) <= ts {
      assert now / DAY <= ts / DAY;
    }
  }

  /** The holds a scope read adds up, whatever has become of their calls. */
  predicate ReadFor(r: Reservation, scope: Scope) {
    match scope
    case Total => true
    case PerRun(run) => r.run == Some(run)
    case Daily(repo, _) => r.repo == Some(repo)
  }

  /** A hold that is read although its row can no longer come to count. */
  predicate Idle(r: Reservation, phase: Phase, now: nat, scope: Scope) {
    ReadFor(r, scope) && !MayLand(r, phase, now, scope)
  }

  /** Idle holds are recorded or failed, or their answer is stamped on another day. */
  lemma IdleMeans(r: Reservation, phase: Phase, now: nat, scope: Scope)
    requires scope.Daily? ==> scope.day == Day(now)
    ensures Idle(r, phase, now, scope)
       <==> ReadFor(r, scope)
            && (phase.Recorded? || phase.Failed? || (phase.Stamped? && scope.Daily? && Day(phase.ts) != scope.day))
  {
  }

  function IdleUpTo(s: State, n: nat, scope: Scope): real
    requires s.held.Keys == s.phase.Keys
  {
    if n == 0 then 0.0
    else IdleUpTo(s, n - 1, scope)
         + if n in s.held && Idle(s.held[n], s.phase[n], s.now, scope) then s.held[n].usd else 0.0
  }

  function RunOf(scope: Scope): Option<string> {
    if scope.PerRun? then Some(scope.run) else None
  }

  function RepoOf(scope: Scope): Option<string> {
    if scope.Daily? then Some(scope.repo) else None
  }

  /** What is held for a scope is what is pending in it and what is idle. */
  lemma {:induction false} HeldIsPendingOrIdle(s: State, n: nat, scope: Scope)
    requires s.held.Keys == s.phase.Keys
    ensures HeldUpTo(s.held, n, RunOf(scope), RepoOf(scope)) == PendingUpTo(s, n, scope) + IdleUpTo(s, n, scope)
  {
    if n > 0 {
      HeldIsPendingOrIdle(s, n - 1, scope);
    }
  }

  /** What counts against a cap when a call is asked for. */
  function Reckoned(s: State, scope: Scope): real
    requires s.held.Keys == s.phase.Keys
  {
    Exposure(s, scope) + IdleUpTo(s, s.next, scope)
  }

  lemma {:induction false} NothingIsIdle(s: State, n: nat, scope: Scope)
    requires s.held == map[] && s.phase == map[]
    ensures PendingUpTo(s, n, scope) == 0.0 && IdleUpTo(s, n, scope) == 0.0
  {
    if n > 0 {
      NothingIsIdle(s, n - 1, scope);
    }
  }
}
