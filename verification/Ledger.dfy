/**
 The budget ledger and the model client that drives it.

 `Ledger` keeps the reservations and the spend table of the source in place;
 `SpendProtocol` is its specification. Prices are in USD per million tokens, and
 the six-decimal rounding is any monotone function that keeps zero.
 */
module Ledger {
  import opened Options
  import opened Products
  import opened SpendProtocol
  import opened SpendReads

  const CACHE_READ: real := 0.1

  /** `cacheWrite` is the factor of the configured cache lifetime: 1.25 or 2.0 in the source. */
  datatype Prices = Prices(table: map<string, (real, real)>, cacheWrite: real, round: real -> real)

  datatype Request = Request(model: string, prompt: string, system: seq<string>, maxTokens: nat)

  datatype Completion = Completion(
    model: string, inputTokens: nat, outputTokens: nat, cacheReadTokens: nat, cacheWriteTokens: nat)

  datatype Check = TotalCheck | DailyCheck(repo: string) | RunCheck(run: string)

  datatype LedgerError =
    | UnpricedModel(model: string)
    | BudgetExceeded(check: Check, cap: real, committed: real, needed: real)

  // ---------------------------------------------------------------- prices --

  ghost predicate Sound(p: Prices) {
    && (forall x, y :: x <= y ==> p.round(x) <= p.round(y))
    && p.round(0.0) == 0.0
    && 0.0 <= p.cacheWrite
    && (forall model <- p.table :: 0.0 <= p.table[model].0 && 0.0 <= p.table[model].1)
  }

  function Chars(texts: seq<string>): nat {
    if texts == [] then 0 else |texts[0]| + Chars(texts[1..])
  }

  function EstimatedTokens(request: Request): nat {
    (|request.prompt| + Chars(request.system)) / 3 + 64
  }

  /** Unrounded USD times a million, for input of each kind. */
  function InputUsd(input: real, cacheWrites: real, cacheReads: real, inp: real, cacheWrite: real): real {
    input * inp + cacheWrites * inp * cacheWrite + cacheReads * inp * CACHE_READ
  }

  function CompletionUsd(c: Completion, inp: real, out: real, cacheWrite: real): real {
    InputUsd(c.inputTokens as real, c.cacheWriteTokens as real, c.cacheReadTokens as real, inp, cacheWrite)
    + c.outputTokens as real * out
  }

  function RequestUsd(tokens: nat, most: nat, inp: real, out: real, cacheWrite: real): real {
    tokens as real * inp * (if cacheWrite < 1.0 then 1.0 else cacheWrite) + most as real * out
  }

  function WorstCase(p: Prices, request: Request): Result<real, LedgerError> {
    if request.model !in p.table then Err(UnpricedModel(request.model))
    else
      var (inp, out) := p.table[request.model];
      Ok(p.round(RequestUsd(EstimatedTokens(request), request.maxTokens, inp, out, p.cacheWrite) / 1_000_000.0))
  }

  function Cost(p: Prices, c: Completion, model: string): real {
    var name := if model in p.table then model else c.model;
    if name !in p.table then 0.0
    else
      var (inp, out) := p.table[name];
      p.round(CompletionUsd(c, inp, out, p.cacheWrite) / 1_000_000.0)
  }

  /** The estimate was right: the provider metered no more than was assumed. */
  predicate Metered(request: Request, c: Completion) {
    && c.inputTokens + c.cacheWriteTokens + c.cacheReadTokens <= EstimatedTokens(request)
    && c.outputTokens <= request.maxTokens
  }

  lemma Add(a: real, a': real, b: real, b': real)
    requires 0.0 <= a <= a' && 0.0 <= b <= b'
    ensures 0.0 <= a + b <= a' + b'
  {
  }

  lemma AddThree(a: real, a': real, b: real, b': real, c: real, c': real)
    requires 0.0 <= a <= a' && 0.0 <= b <= b' && 0.0 <= c <= c'
    ensures 0.0 <= a + b + c <= a' + b' + c'
  {
  }

  lemma DistributeThree(a: real, b: real, c: real, factor: real)
    ensures (a + b + c) * factor == a * factor + b * factor + c * factor
  {
  }

  lemma InputBound(i: real, w: real, r: real, tokens: real, inp: real, cacheWrite: real, write: real)
    requires 0.0 <= i && 0.0 <= w && 0.0 <= r && i + w + r <= tokens
    requires 0.0 <= inp && 0.0 <= cacheWrite <= write && 1.0 <= write
    ensures 0.0 <= InputUsd(i, w, r, inp, cacheWrite) <= tokens * inp * write
  {
    var a, b, c := i * inp, w * inp, r * inp;
    InputTermsBound(a, b, c, cacheWrite, write) by {
      Scale(0.0, i, inp);
      Scale(0.0, w, inp);
      Scale(0.0, r, inp);
    }
    DistributeThree(i, w, r, inp);
    Scale(i + w + r, tokens, inp);
    Scale(a + b + c, tokens * inp, write);
  }

  lemma InputTermsBound(a: real, b: real, c: real, cacheWrite: real, write: real)
    requires 0.0 <= a && 0.0 <= b && 0.0 <= c && 0.0 <= cacheWrite <= write && 1.0 <= write
    ensures 0.0 <= a + b * cacheWrite + c * CACHE_READ <= (a + b + c) * write
  {
    FactorBound(a, 1.0, write);
    FactorBound(b, cacheWrite, write);
    FactorBound(c, CACHE_READ, write);
    AddThree(a * 1.0, a * write, b * cacheWrite, b * write, c * CACHE_READ, c * write);
    DistributeThree(a, b, c, write);
  }

  /** The worst case bounds the real cost, for every price, cache lifetime and rounding. */
  lemma WorstCaseBoundsCost(p: Prices, request: Request, c: Completion)
    requires Sound(p) && request.model in p.table && Metered(request, c)
    ensures 0.0 <= Cost(p, c, request.model) <= WorstCase(p, request).value
  {
    var (inp, out) := p.table[request.model];
    UsdBound(c, EstimatedTokens(request), request.maxTokens, inp, out, p.cacheWrite);
    RoundedInOrder(p, CompletionUsd(c, inp, out, p.cacheWrite),
                   RequestUsd(EstimatedTokens(request), request.maxTokens, inp, out, p.cacheWrite));
  }

  lemma UsdBound(c: Completion, tokens: nat, most: nat, inp: real, out: real, cacheWrite: real)
    requires c.inputTokens + c.cacheWriteTokens + c.cacheReadTokens <= tokens && c.outputTokens <= most
    requires 0.0 <= inp && 0.0 <= out && 0.0 <= cacheWrite
    ensures 0.0 <= CompletionUsd(c, inp, out, cacheWrite) <= RequestUsd(tokens, most, inp, out, cacheWrite)
  {
    var write := if cacheWrite < 1.0 then 1.0 else cacheWrite;
    var i, w, r := c.inputTokens as real, c.cacheWriteTokens as real, c.cacheReadTokens as real;
    var done, limit := c.outputTokens as real * out, most as real * out;
    InputBound(i, w, r, tokens as real, inp, cacheWrite, write);
    Scale(0.0, c.outputTokens as real, out);
    Scale(c.outputTokens as real, most as real, out);
    Add(InputUsd(i, w, r, inp, cacheWrite), tokens as real * inp * write, done, limit);
    assert CompletionUsd(c, inp, out, cacheWrite) == InputUsd(i, w, r, inp, cacheWrite) + done;
    assert RequestUsd(tokens, most, inp, out, cacheWrite) == tokens as real * inp * write + limit;
  }

  lemma RoundingKeepsOrder(p: Prices, a: real, b: real)
    requires Sound(p) && 0.0 <= a <= b
    ensures 0.0 <= p.round(a) <= p.round(b)
  {
    assert p.round(0.0) == 0.0;
  }

  lemma MillionthsInOrder(a: real, b: real)
    requires 0.0 <= a <= b
    ensures 0.0 <= a / 1_000_000.0 <= b / 1_000_000.0
  {
  }

  lemma RoundedInOrder(p: Prices, cost: real, worst: real)
    requires Sound(p) && 0.0 <= cost <= worst
    ensures 0.0 <= p.round(cost / 1_000_000.0) <= p.round(worst / 1_000_000.0)
  {
    MillionthsInOrder(cost, worst);
    RoundingKeepsOrder(p, cost / 1_000_000.0, worst / 1_000_000.0);
  }

  // ---------------------------------------------------------------- ledger --

  /** What a check compares with its cap, read from the spend table and the holds. */
  function CommittedIn(rows: seq<Row>, held: map<nat, Reservation>, next: nat, now: nat, check: Check): real {
    match check
    case TotalCheck => Spent(rows, Filter(None, None, None, None)) + HeldUpTo(held, next, None, None)
    case DailyCheck(repo) =>
      Spent(rows, Filter(None, Some(repo), Some(DayStart(now)), None)) + HeldUpTo(held, next, None, Some(repo))
    case RunCheck(run) => Spent(rows, Filter(Some(run), None, None, None)) + HeldUpTo(held, next, Some(run), None)
  }

  function Committed(s: State, check: Check): real {
    CommittedIn(s.rows, s.held, s.next, s.now, check)
  }

  function CheckCap(b: Budget, check: Check): real {
    match check
    case TotalCheck => b.total
    case DailyCheck(_) => b.perRepoDaily
    case RunCheck(_) => b.perRun
  }

  /** The checks of one call, in the order they are made. */
  function Checks(run: Option<string>, repo: Option<string>): seq<Check> {
    [TotalCheck]
    + (if repo.Some? then [DailyCheck(repo.value)] else [])
    + (if run.Some? then [RunCheck(run.value)] else [])
  }

  predicate Passes(b: Budget, s: State, check: Check, needed: real) {
    Committed(s, check) + needed <= CheckCap(b, check)
  }

  predicate AllPass(b: Budget, s: State, checks: seq<Check>, needed: real) {
    forall check <- checks :: Passes(b, s, check, needed)
  }

  /** The caps a check speaks for: a daily check made now speaks for today and every later day. */
  predicate Concerns(check: Check, now: nat, scope: Scope) {
    match check
    case TotalCheck => scope.Total?
    case DailyCheck(repo) => scope.Daily? && scope.repo == repo && Day(now) <= scope.day
    case RunCheck(run) => scope == PerRun(run)
  }

  /** What is committed for a check bounds the exposure of every cap it speaks for. */
  lemma CommittedBoundsExposure(s: State, check: Check, scope: Scope)
    requires Shape(s) && Concerns(check, s.now, scope)
    ensures Exposure(s, scope) <= Committed(s, check)
  {
    match check {
      case TotalCheck => TotalReadBounds(s);
      case RunCheck(run) => RunReadBounds(s, run);
      case DailyCheck(repo) =>
        DayStartFacts(s.now);
        DailyReadBounds(s, repo, DayStart(s.now), scope.day);
    }
  }

  /** The cap a check is about at this moment. */
  function ScopeNow(check: Check, now: nat): Scope {
    match check
    case TotalCheck => Total
    case DailyCheck(repo) => Daily(repo, Day(now))
    case RunCheck(run) => PerRun(run)
  }

  /** What a check finds committed is exactly the exposure of its cap and the idle holds read with it. */
  lemma CommittedIs(s: State, check: Check)
    requires Shape(s)
    ensures Committed(s, check) == Reckoned(s, ScopeNow(check, s.now))
  {
    HeldIsPendingOrIdle(s, s.next, ScopeNow(check, s.now));
    if check.DailyCheck? {
      SinceDayStartIsToday(s.rows, check.repo, s.now);
    }
  }

  /** There is room for a call under every cap that concerns it now. */
  predicate RoomFor(b: Budget, s: State, usd: real, run: Option<string>, repo: Option<string>)
    requires s.held.Keys == s.phase.Keys
  {
    && Reckoned(s, Total) + usd <= b.total
    && (repo.Some? ==> Reckoned(s, Daily(repo.value, Day(s.now))) + usd <= b.perRepoDaily)
    && (run.Some? ==> Reckoned(s, PerRun(run.value)) + usd <= b.perRun)
  }

  /** A call passes its checks exactly if there is room for it. */
  lemma PassesExactlyWhen(b: Budget, s: State, usd: real, run: Option<string>, repo: Option<string>)
    requires Shape(s)
    ensures AllPass(b, s, Checks(run, repo), usd) <==> RoomFor(b, s, usd, run, repo)
  {
    AllChecksPass(b, s, usd, run, repo);
    CommittedIs(s, TotalCheck);
    if repo.Some? { CommittedIs(s, DailyCheck(repo.value)); }
    if run.Some? { CommittedIs(s, RunCheck(run.value)); }
  }

  /** With nothing held, only rows count: all of them, those of the repository stamped today, and those of the run. */
  lemma OnlyRowsCount(b: Budget, s: State, usd: real, run: string, repo: string)
    requires Shape(s) && s.held == map[]
    ensures AllPass(b, s, Checks(Some(run), Some(repo)), usd)
       <==> && SumWhere(s.rows, row => true) + usd <= b.total
            && SumWhere(s.rows, (row: Row) => row.repo == Some(repo) && row.ts / DAY == s.now / DAY)
               + usd <= b.perRepoDaily
            && SumWhere(s.rows, (row: Row) => row.run == Some(run)) + usd <= b.perRun
  {
    PassesExactlyWhen(b, s, usd, Some(run), Some(repo));
    ScopesCount(s.rows, run, repo, Day(s.now));
    NothingIsIdle(s, s.next, Total);
    NothingIsIdle(s, s.next, PerRun(run));
    NothingIsIdle(s, s.next, Daily(repo, Day(s.now)));
  }

  /** The refusal names the total first, then the repository's day, then the run. */
  lemma RefusalOrder(b: Budget, s: State, usd: real, run: Option<string>, repo: Option<string>, e: LedgerError)
    requires Shape(s) && IsFirstRefusal(b, s, Checks(run, repo), usd, e)
    ensures Reckoned(s, Total) + usd > b.total ==> e == BudgetExceeded(TotalCheck, b.total, Reckoned(s, Total), usd)
    ensures Reckoned(s, Total) + usd <= b.total && repo.Some?
            && Reckoned(s, Daily(repo.value, Day(s.now))) + usd > b.perRepoDaily ==>
              e == BudgetExceeded(DailyCheck(repo.value), b.perRepoDaily,
                                  Reckoned(s, Daily(repo.value, Day(s.now))), usd)
    ensures Reckoned(s, Total) + usd <= b.total
            && (repo.Some? ==> Reckoned(s, Daily(repo.value, Day(s.now))) + usd <= b.perRepoDaily) ==>
              run.Some? && e == BudgetExceeded(RunCheck(run.value), b.perRun, Reckoned(s, PerRun(run.value)), usd)
  {
    var checks := Checks(run, repo);
    var k :| 0 <= k < |checks| && checks[k] == e.check && AllPass(b, s, checks[..k], usd);
    CommittedIs(s, TotalCheck);
    CommittedIs(s, e.check);
    assert checks[0] == TotalCheck;
    if k > 0 {
      assert TotalCheck in checks[..k] && Passes(b, s, TotalCheck, usd);
    }
    if repo.Some? {
      CommittedIs(s, DailyCheck(repo.value));
      assert checks[1] == DailyCheck(repo.value);
      if k > 1 {
        assert DailyCheck(repo.value) in checks[..k] && Passes(b, s, DailyCheck(repo.value), usd);
      }
    }
  }

  /** No cap is left unchecked: where the row of a call may land, one of its checks speaks
      for the cap, so a call that passes them all fits under every cap it could count against. */
  lemma PassingChecksFit(b: Budget, s: State, usd: real, run: Option<string>, repo: Option<string>, scope: Scope)
    requires Shape(s) && AllPass(b, s, Checks(run, repo), usd)
    requires MayLand(Reservation(s.next + 1, usd, run, repo), Calling, s.now, scope)
    ensures Exposure(s, scope) + usd <= Cap(b, scope)
  {
    AllChecksPass(b, s, usd, run, repo);
    var check := match scope case Total => TotalCheck case PerRun(r) => RunCheck(r) case Daily(r, _) => DailyCheck(r);
    CommittedBoundsExposure(s, check, scope);
  }

  /** The error names the first check that fails, with its cap and what was committed to it. */
  ghost predicate IsFirstRefusal(b: Budget, s: State, checks: seq<Check>, needed: real, e: LedgerError) {
    && e.BudgetExceeded? && !Passes(b, s, e.check, needed)
    && e == BudgetExceeded(e.check, CheckCap(b, e.check), Committed(s, e.check), needed)
    && exists k :: 0 <= k < |checks| && checks[k] == e.check && AllPass(b, s, checks[..k], needed)
  }

  lemma FirstRefusal(b: Budget, s: State, checks: seq<Check>, k: nat, needed: real)
    requires k < |checks| && !Passes(b, s, checks[k], needed) && AllPass(b, s, checks[..k], needed)
    ensures !AllPass(b, s, checks, needed)
    ensures IsFirstRefusal(b, s, checks, needed,
                           BudgetExceeded(checks[k], CheckCap(b, checks[k]), Committed(s, checks[k]), needed))
  {
  }

  /** The protocol's steps of one `reserve` that nothing interleaves with. */
  function ReserveSteps(b: Budget, s: State, usd: real, run: Option<string>, repo: Option<string>): State {
    var s1 := Apply(b, Apply(b, s, Begin(usd, run, repo)), ReadTotal);
    var s2 := Apply(b, Apply(b, s1, ReadClock), ReadDaily);
    Apply(b, Apply(b, s2, ReadRun), Decide)
  }

  lemma AllChecksPass(b: Budget, s: State, usd: real, run: Option<string>, repo: Option<string>)
    ensures AllPass(b, s, Checks(run, repo), usd)
       <==> && Passes(b, s, TotalCheck, usd)
            && (repo.Some? ==> Passes(b, s, DailyCheck(repo.value), usd))
            && (run.Some? ==> Passes(b, s, RunCheck(run.value), usd))
  {
    var checks := Checks(run, repo);
    assert checks[0] == TotalCheck;
    assert repo.Some? ==> checks[1] == DailyCheck(repo.value);
    assert run.Some? ==> checks[|checks| - 1] == RunCheck(run.value);
  }

  /** What a `reserve` has read when it decides. */
  function Gathered(s: State, usd: real, run: Option<string>, repo: Option<string>): Progress {
    Progress(usd, run, repo, Some(Committed(s, TotalCheck)),
             if repo.Some? then Some(DayStart(s.now)) else None,
             if repo.Some? then Some(Committed(s, DailyCheck(repo.value))) else None,
             if run.Some? then Some(Committed(s, RunCheck(run.value))) else None)
  }

  lemma TotalGathered(b: Budget, s: State, usd: real, run: Option<string>, repo: Option<string>)
    requires s.reserving.None?
    ensures Apply(b, Apply(b, s, Begin(usd, run, repo)), ReadTotal)
         == s.(reserving := Some(Gathered(s, usd, run, repo).(since := None, daily := None, perRun := None)))
  {
  }

  lemma DailyGathered(b: Budget, s: State, usd: real, run: Option<string>, repo: Option<string>)
    ensures var p := Gathered(s, usd, run, repo);
            Apply(b, Apply(b, s.(reserving := Some(p.(since := None, daily := None, perRun := None))),
                           ReadClock), ReadDaily)
            == s.(reserving := Some(p.(perRun := None)))
  {
  }

  lemma RunGathered(b: Budget, s: State, usd: real, run: Option<string>, repo: Option<string>)
    ensures var p := Gathered(s, usd, run, repo);
            Apply(b, s.(reserving := Some(p.(perRun := None))), ReadRun) == s.(reserving := Some(p))
  {
  }

  lemma DecidesWhatWasGathered(b: Budget, s: State, usd: real, run: Option<string>, repo: Option<string>)
    requires s.reserving.None?
    ensures Apply(b, s.(reserving := Some(Gathered(s, usd, run, repo))), Decide)
         == if AllPass(b, s, Checks(run, repo), usd)
            then Admit(s, Progress(usd, run, repo, None, None, None, None)) else s
  {
    AllChecksPass(b, s, usd, run, repo);
  }

  /** The steps of a `reserve` decide exactly what its checks decide. */
  lemma ReserveStepsDecide(b: Budget, s: State, usd: real, run: Option<string>, repo: Option<string>)
    requires s.reserving.None?
    ensures ReserveSteps(b, s, usd, run, repo)
         == if AllPass(b, s, Checks(run, repo), usd)
            then Admit(s, Progress(usd, run, repo, None, None, None, None)) else s
  {
    TotalGathered(b, s, usd, run, repo);
    DailyGathered(b, s, usd, run, repo);
    RunGathered(b, s, usd, run, repo);
    DecidesWhatWasGathered(b, s, usd, run, repo);
  }

  lemma ReserveKeepsInv(b: Budget, s: State, usd: real, run: Option<string>, repo: Option<string>)
    requires Inv(b, s) && 0.0 <= usd
    ensures Inv(b, ReserveSteps(b, s, usd, run, repo))
  {
    var s0 := Apply(b, s, Begin(usd, run, repo));
    var s1 := Apply(b, s0, ReadTotal);
    var s2 := Apply(b, s1, ReadClock);
    var s3 := Apply(b, s2, ReadDaily);
    StepKeepsInv(b, s, Begin(usd, run, repo));
    StepKeepsInv(b, s0, ReadTotal);
    StepKeepsInv(b, s1, ReadClock);
    StepKeepsInv(b, s2, ReadDaily);
    StepKeepsInv(b, s3, ReadRun);
    StepKeepsInv(b, Apply(b, s3, ReadRun), Decide);
  }

  /** The protocol's steps of one call after its admission: `cost` is None if the provider raised. */
  function CallSteps(b: Budget, s: State, id: nat, later: nat, cost: Option<real>): State {
    var t := Apply(b, s, Tick(later));
    var recorded := if cost.Some? then Apply(b, Apply(b, t, Return(id, cost.value)), Insert(id))
        else Apply(b, t, Raise(id));
    Apply(b, recorded, Release(id))
  }

  lemma CallKeepsInv(b: Budget, s: State, id: nat, later: nat, cost: Option<real>)
    requires Inv(b, s) && s.reserving.None? && id in s.held && s.phase[id].Calling? && s.now <= later
    requires cost.Some? ==> 0.0 <= cost.value <= s.held[id].usd
    ensures Inv(b, CallSteps(b, s, id, later, cost))
  {
    StepKeepsInv(b, s, Tick(later));
    var t := Apply(b, s, Tick(later));
    var e := if cost.Some? then Return(id, cost.value) else Raise(id);
    StepKeepsInv(b, t, e);
    var u := Apply(b, t, e);
    if cost.Some? {
      StepKeepsInv(b, u, Insert(id));
      u := Apply(b, u, Insert(id));
    }
    StepKeepsInv(b, u, Release(id));
  }

  /** One call leaves the ledger as it was before its admission, plus a row if it succeeded. */
  lemma CallStepsEffect(b: Budget, s: State, id: nat, later: nat, cost: Option<real>)
    requires s.reserving.None? && id in s.held && id in s.phase && s.phase[id].Calling? && s.now <= later
    ensures CallSteps(b, s, id, later, cost)
         == State(later,
                  s.rows + if cost.Some? then [Row(later, s.held[id].run, s.held[id].repo, cost.value)] else [],
                  s.held - {id}, s.next, s.phase - {id}, None)
  {
    var t := Apply(b, s, Tick(later));
    if cost.Some? {
      assert Apply(b, Apply(b, t, Return(id, cost.value)), Insert(id)).phase == s.phase[id := Recorded];
    } else {
      assert Apply(b, t, Raise(id)).phase == s.phase[id := Failed];
    }
  }

  lemma NoWorstCaseIsNegative(p: Prices, request: Request)
    requires Sound(p) && WorstCase(p, request).Ok?
    ensures 0.0 <= WorstCase(p, request).value
  {
    WorstCaseBoundsCost(p, request, Completion(request.model, 0, 0, 0, 0));
  }

  /** What one `ask` does to the ledger; a missing `hit` is a cache miss. */
  function AskSteps(b: Budget, p: Prices, s: State, request: Request, run: Option<string>, repo: Option<string>,
                    hit: Option<Completion>, available: bool, answer: Result<Completion, int>, later: nat): State
  {
    if hit.Some? then Apply(b, s, CacheHit(s.now, run, repo))
    else if !available || WorstCase(p, request).Err? then s
    else
      var t := ReserveSteps(b, s, WorstCase(p, request).value, run, repo);
      if t.next == s.next then t
      else CallSteps(b, t, t.next, later, if answer.Ok? then Some(Cost(p, answer.value, request.model)) else None)
  }

  /** What follows an admission keeps the invariant and removes the hold. */
  lemma AdmittedCallKeepsInv(b: Budget, p: Prices, s: State, request: Request, later: nat,
                             answer: Result<Completion, int>)
    requires Inv(b, s) && Sound(p) && s.reserving.None? && s.now <= later && s.next in s.held
             && s.phase[s.next].Calling?
    requires WorstCase(p, request).Ok? && s.held[s.next].usd == WorstCase(p, request).value
    requires answer.Ok? ==> Metered(request, answer.value)
    ensures var cost := if answer.Ok? then Some(Cost(p, answer.value, request.model)) else None;
            var t := CallSteps(b, s, s.next, later, cost);
            Inv(b, t) && t.held == s.held - {s.next} && t.reserving.None?
  {
    if answer.Ok? { WorstCaseBoundsCost(p, request, answer.value); }
    var cost := if answer.Ok? then Some(Cost(p, answer.value, request.model)) else None;
    CallKeepsInv(b, s, s.next, later, cost);
    CallStepsEffect(b, s, s.next, later, cost);
  }

  /** A metered call keeps every cap, and whatever happens to it no hold is left behind. */
  lemma AskKeepsTheCaps(b: Budget, p: Prices, s: State, request: Request, run: Option<string>, repo: Option<string>,
                        hit: Option<Completion>, available: bool, answer: Result<Completion, int>, later: nat)
    requires Inv(b, s) && Sound(p) && s.reserving.None? && s.now <= later
    requires answer.Ok? ==> Metered(request, answer.value)
    ensures var t := AskSteps(b, p, s, request, run, repo, hit, available, answer, later);
            Inv(b, t) && t.held == s.held && t.reserving.None?
  {
    if hit.Some? {
      StepKeepsInv(b, s, CacheHit(s.now, run, repo));
    } else if available && WorstCase(p, request).Ok? {
      NoWorstCaseIsNegative(p, request);
      ReservedIs(b, s, WorstCase(p, request).value, run, repo);
      var t := ReserveSteps(b, s, WorstCase(p, request).value, run, repo);
      if t.next != s.next {
        AdmittedCallKeepsInv(b, p, t, request, later, answer);
      }
    }
  }

  /** What a `reserve` leaves behind: nothing, or one hold more. */
  lemma ReservedIs(b: Budget, s: State, usd: real, run: Option<string>, repo: Option<string>)
    requires Inv(b, s) && s.reserving.None? && 0.0 <= usd
    ensures var t := ReserveSteps(b, s, usd, run, repo);
            && Inv(b, t) && t.reserving.None? && t.now == s.now
            && (t.next == s.next ==> t.held == s.held)
            && (t.next != s.next ==>
                  t.next in t.held && t.phase[t.next].Calling? && t.held[t.next].usd == usd
                    && t.held - {t.next} == s.held)
  {
    ReserveKeepsInv(b, s, usd, run, repo);
    ReserveStepsDecide(b, s, usd, run, repo);
    assert s.next + 1 !in s.held;
  }

  class Ledger {
    const budget: Budget
    const prices: Prices
    var now: nat
    var rows: seq<Row>
    var held: map<nat, Reservation>
    var next: nat
    ghost var phase: map<nat, Phase>

    constructor (budget: Budget, prices: Prices, now: nat, rows: seq<Row>)
      ensures this.budget == budget && this.prices == prices
      ensures View() == State(now, rows, map[], 0, map[], None)
    {
      this.budget, this.prices, this.now, this.rows := budget, prices, now, rows;
      held, next, phase := map[], 0, map[];
    }

    ghost function View(): State
      reads this
    {
      State(now, rows, held, next, phase, None)
    }

    ghost predicate Valid()
      reads this
    {
      && held.Keys == phase.Keys
      && forall id <- held :: 1 <= id <= next && held[id].id == id
    }

    /** Reserve the worst case of `request`, or refuse it naming the first cap it could breach. */
    method Reserve(request: Request, run: Option<string>, repo: Option<string>)
      returns (r: Result<Reservation, LedgerError>)
      requires Valid()
      modifies this
      ensures Valid() && now == old(now) && rows == old(rows)
      ensures WorstCase(prices, request).Err? ==> r == Err(WorstCase(prices, request).error)
      ensures r.Ok? <==> WorstCase(prices, request).Ok?
                         && AllPass(budget, old(View()), Checks(run, repo), WorstCase(prices, request).value)
      ensures WorstCase(prices, request).Ok? && Shape(old(View())) ==>
                (r.Ok? <==> RoomFor(budget, old(View()), WorstCase(prices, request).value, run, repo))
      ensures r.Ok? ==>
                && r.value == Reservation(old(next) + 1, WorstCase(prices, request).value, run, repo)
                && next == r.value.id && held == old(held)[next := r.value] && phase == old(phase)[next := Calling]
      ensures r.Err? ==> View() == old(View())
      ensures r.Err? && WorstCase(prices, request).Ok? ==>
                IsFirstRefusal(budget, old(View()), Checks(run, repo), WorstCase(prices, request).value, r.error)
      ensures WorstCase(prices, request).Ok? ==>
                View() == ReserveSteps(budget, old(View()), WorstCase(prices, request).value, run, repo)
    {
      var worst := WorstCase(prices, request);
      if worst.Err? {
        return Err(worst.error);
      }
      var needed := worst.value;
      ReserveStepsDecide(budget, View(), needed, run, repo);
      RoomOrNot(needed, run, repo);
      var refusal := FirstToFail(Checks(run, repo), needed);
      if refusal.Some? {
        return Err(refusal.value);
      }
      next := next + 1;
      var reservation := Reservation(next, needed, run, repo);
      held := held[next := reservation];
      phase := phase[next := Calling];
      return Ok(reservation);
    }

    lemma RoomOrNot(needed: real, run: Option<string>, repo: Option<string>)
      ensures Shape(View()) ==>
                (AllPass(budget, View(), Checks(run, repo), needed) <==> RoomFor(budget, View(), needed, run, repo))
    {
      if Shape(View()) {
        PassesExactlyWhen(budget, View(), needed, run, repo);
      }
    }

    /** The first of the checks that `needed` does not pass. */
    method FirstToFail(checks: seq<Check>, needed: real) returns (refusal: Option<LedgerError>)
      ensures refusal.None? <==> AllPass(budget, View(), checks, needed)
      ensures refusal.Some? ==> IsFirstRefusal(budget, View(), checks, needed, refusal.value)
    {
      for k := 0 to |checks|
        invariant AllPass(budget, View(), checks[..k], needed)
      {
        var cap, committed := CheckCap(budget, checks[k]), CommittedIn(rows, held, next, now, checks[k]);
        if committed + needed > cap {
          FirstRefusal(budget, View(), checks, k, needed);
          return Some(BudgetExceeded(checks[k], cap, committed, needed));
        }
        assert checks[..k + 1] == checks[..k] + [checks[k]];
      }
      assert checks[..|checks|] == checks;
      return None;
    }

    method Release(reservation: Reservation)
      requires Valid()
      modifies this`held, this`phase
      ensures Valid() && held == old(held) - {reservation.id} && phase == old(phase) - {reservation.id}
    {
      held := held - {reservation.id};
      phase := phase - {reservation.id};
    }

    method Record(completion: Completion, model: string, run: Option<string>, repo: Option<string>,
                  cached: bool, reservation: Option<Reservation>)
      returns (usd: real)
      requires Valid()
      modifies this`rows, this`held, this`phase
      ensures Valid()
      ensures usd == if cached then 0.0 else Cost(prices, completion, model)
      ensures rows == old(rows) + [Row(now, run, repo, usd)]
      ensures held == if reservation.Some? then old(held) - {reservation.value.id} else old(held)
      ensures phase == if reservation.Some? then old(phase) - {reservation.value.id} else old(phase)
    {
      usd := if cached then 0.0 else Cost(prices, completion, model);
      rows := rows + [Row(now, run, repo, usd)];
      if reservation.Some? {
        Release(reservation.value);
      }
    }

    /** Time passes, for instance while the provider is working. */
    method Wait(later: nat)
      requires now <= later
      modifies this`now
      ensures now == later
    {
      now := later;
    }
  }

  // ---------------------------------------------------------------- client --

  datatype AskError = Unavailable | Refused(why: LedgerError) | ProviderError(status: int)

  /** The client gives up on a provider that answers like this. */
  predicate Trips(status: int) {
    status == 401 || status == 403 || status == 404
  }

  class ModelClient {
    const ledger: Ledger
    var available: bool

    constructor (ledger: Ledger, available: bool)
      ensures this.ledger == ledger && this.available == available
    {
      this.ledger, this.available := ledger, available;
    }

    /** Answer from the cache, or reserve, call, and record or release. `answer` is what
        the provider does with the request and `later` the time at which it has done it. */
    method Ask(request: Request, run: Option<string>, repo: Option<string>,
               hit: Option<Completion>, answer: Result<Completion, int>, later: nat)
      returns (r: Result<real, AskError>)
      requires ledger.Valid() && ledger.now <= later
      modifies this`available, ledger
      ensures ledger.Valid() && ledger.held == old(ledger.held) && ledger.phase == old(ledger.phase)
      ensures r.Ok? <==> hit.Some? || (old(available) && ledger.next == old(ledger.next) + 1 && answer.Ok?)
      ensures r.Ok? ==> ledger.rows == old(ledger.rows) + [Row(ledger.now, run, repo, r.value)]
                        && r.value == if hit.Some? then 0.0 else Cost(ledger.prices, answer.value, request.model)
      ensures r.Err? ==> ledger.rows == old(ledger.rows)
      ensures r.Err? && !r.error.ProviderError? ==> ledger.next == old(ledger.next)
      ensures available == (old(available) && !(r.Err? && r.error.ProviderError? && r.error.status in {401, 403, 404}))
      ensures ledger.View() == AskSteps(ledger.budget, ledger.prices, old(ledger.View()), request, run, repo,
                                        hit, old(available), answer, later)
    {
      if hit.Some? {
        var usd := ledger.Record(hit.value, request.model, run, repo, true, None);
        return Ok(usd);
      }
      if !available {
        return Err(Unavailable);
      }
      r := Send(request, run, repo, answer, later);
    }

    /** A request that is not in the cache: reserve its worst case, and call. */
    method Send(request: Request, run: Option<string>, repo: Option<string>,
                answer: Result<Completion, int>, later: nat)
      returns (r: Result<real, AskError>)
      requires ledger.Valid() && ledger.now <= later
      modifies this`available, ledger
      ensures ledger.Valid() && ledger.held == old(ledger.held) && ledger.phase == old(ledger.phase)
      ensures r.Ok? <==> ledger.next == old(ledger.next) + 1 && answer.Ok?
      ensures r.Ok? ==> ledger.rows == old(ledger.rows) + [Row(ledger.now, run, repo, r.value)]
                        && r.value == Cost(ledger.prices, answer.value, request.model)
      ensures r.Err? ==> ledger.rows == old(ledger.rows) && !r.error.Unavailable?
      ensures r.Err? && r.error.Refused? ==> ledger.next == old(ledger.next)
      ensures available == (old(available) && !(r.Err? && r.error.ProviderError? && r.error.status in {401, 403, 404}))
      ensures ledger.View() == AskSteps(ledger.budget, ledger.prices, old(ledger.View()), request, run, repo,
                                        None, true, answer, later)
    {
      var reserved := ledger.Reserve(request, run, repo);
      if reserved.Err? {
        return Err(Refused(reserved.error));
      }
      r := Settle(request, run, repo, reserved.value, answer, later);
    }

    /** The provider's turn, and what `ask` makes of its answer. */
    method Settle(request: Request, run: Option<string>, repo: Option<string>, reservation: Reservation,
                  answer: Result<Completion, int>, later: nat)
      returns (r: Result<real, AskError>)
      requires ledger.Valid() && ledger.now <= later
      requires reservation.id in ledger.held && ledger.held[reservation.id] == reservation
      requires reservation.run == run && reservation.repo == repo && ledger.phase[reservation.id].Calling?
      modifies this`available, ledger
      ensures ledger.Valid()
      ensures r == if answer.Ok? then Ok(Cost(ledger.prices, answer.value, request.model))
                   else Err(ProviderError(answer.error))
      ensures available == (old(available) && !(answer.Err? && answer.error in {401, 403, 404}))
      ensures ledger.View() == CallSteps(ledger.budget, old(ledger.View()), reservation.id, later,
                                         if r.Ok? then Some(r.value) else None)
      ensures ledger.View() == State(later, old(ledger.rows) + if r.Ok? then [Row(later, run, repo, r.value)] else [],
                                     old(ledger.held) - {reservation.id}, old(ledger.next),
                                     old(ledger.phase) - {reservation.id}, None)
    {
      ghost var before := ledger.View();
      CallStepsEffect(ledger.budget, before, reservation.id, later,
                      if answer.Ok? then Some(Cost(ledger.prices, answer.value, request.model)) else None);
      ledger.Wait(later);
      if answer.Err? {
        ledger.Release(reservation);
        available := available && !Trips(answer.error);
        return Err(ProviderError(answer.error));
      }
      var usd := ledger.Record(answer.value, request.model, run, repo, false, Some(reservation));
      return Ok(usd);
    }
  }
}
