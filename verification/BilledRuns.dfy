/**
 The protocol as the client drives it: what is reserved is the worst case of a request,
 and what is charged is the metered cost of an answer to it.
 */
module BilledRuns {
  import opened Ledger
  import opened Options
  import opened SpendProtocol

  /** A call is asked for, a call is answered, or anything else happens. */
  datatype Step =
    | Ask(request: Request, run: Option<string>, repo: Option<string>)
    | Answer(id: nat, completion: Completion)
    | Other(event: Event)

  /** The ledger, the request behind every reservation, and the one being reserved for. */
  datatype Books = Books(state: State, asked: map<nat, Request>, asking: Option<Request>)

  function EventOf(p: Prices, k: Books, step: Step): Event {
    match step
    case Ask(request, run, repo) =>
      Begin(if WorstCase(p, request).Ok? then WorstCase(p, request).value else 0.0, run, repo)
    case Answer(id, completion) => Return(id, if id in k.asked then Cost(p, completion, k.asked[id].model) else 0.0)
    case Other(event) => event
  }

  /** An unpriced request is refused before it reserves; an answer stays within its estimate. */
  predicate Metering(p: Prices, k: Books, step: Step) {
    match step
    case Ask(request, _, _) => WorstCase(p, request).Ok?
    case Answer(id, completion) => id in k.asked && Metered(k.asked[id], completion)
    case Other(event) => !event.Begin? && !event.Return?
  }

  function Next(b: Budget, p: Prices, k: Books, step: Step): Books {
    var t := Apply(b, k.state, EventOf(p, k, step));
    Books(t,
          if t.next != k.state.next && k.asking.Some? then k.asked[t.next := k.asking.value] else k.asked,
          if step.Ask? && k.state.reserving.None? then Some(step.request) else k.asking)
  }

  function Events(b: Budget, p: Prices, k: Books, steps: seq<Step>): seq<Event>
    decreases |steps|
  {
    if steps == [] then [] else [EventOf(p, k, steps[0])] + Events(b, p, Next(b, p, k, steps[0]), steps[1..])
  }

  predicate AllMetered(b: Budget, p: Prices, k: Books, steps: seq<Step>)
    decreases |steps|
  {
    steps == [] || (Metering(p, k, steps[0]) && AllMetered(b, p, Next(b, p, k, steps[0]), steps[1..]))
  }

  predicate ReservedFor(p: Prices, usd: real, request: Request) {
    request.model in p.table && usd == WorstCase(p, request).value
  }

  /** Every reservation is the worst case of the request it was made for. */
  predicate Kept(p: Prices, k: Books) {
    && (forall id <- k.state.held ::
          id <= k.state.next && id in k.asked && ReservedFor(p, k.state.held[id].usd, k.asked[id]))
    && (k.state.reserving.Some? ==> k.asking.Some? && ReservedFor(p, k.state.reserving.value.usd, k.asking.value))
  }

  /** `t` holds nothing that `s` did not hold, and reserves for nothing else. */
  predicate NothingNew(s: State, t: State) {
    && t.next == s.next
    && (forall id <- t.held :: id in s.held && t.held[id] == s.held[id])
    && (t.reserving.Some? ==> s.reserving.Some? && t.reserving.value.usd == s.reserving.value.usd)
  }

  lemma NothingNewIn(b: Budget, s: State, e: Event)
    requires !e.Begin? && !e.Decide?
    ensures NothingNew(s, Apply(b, s, e))
  {
  }

  lemma KeptWithNothingNew(p: Prices, k: Books, t: State)
    requires Kept(p, k) && NothingNew(k.state, t)
    ensures Kept(p, k.(state := t))
  {
  }

  /** An event that admits nothing and asks for nothing new. */
  lemma EventKeepsBooks(b: Budget, p: Prices, k: Books, e: Event)
    requires Kept(p, k) && !e.Begin? && !e.Decide?
    ensures Kept(p, k.(state := Apply(b, k.state, e))) && Apply(b, k.state, e).next == k.state.next
  {
    NothingNewIn(b, k.state, e);
    KeptWithNothingNew(p, k, Apply(b, k.state, e));
  }

  /** What is admitted is what was being asked for. */
  lemma DecideKeepsBooks(b: Budget, p: Prices, k: Books)
    requires Kept(p, k)
    ensures Kept(p, Next(b, p, k, Other(Decide)))
  {
    var t := Apply(b, k.state, Decide);
    if t.next != k.state.next {
      assert t.held == k.state.held[t.next := t.held[t.next]];
    }
  }

  lemma StepKeepsBooks(b: Budget, p: Prices, k: Books, step: Step)
    requires Kept(p, k) && Metering(p, k, step)
    ensures Kept(p, Next(b, p, k, step))
  {
    if step == Other(Decide) {
      DecideKeepsBooks(b, p, k);
    } else if !step.Ask? {
      EventKeepsBooks(b, p, k, EventOf(p, k, step));
    }
  }

  lemma MeteredStepIsHonest(p: Prices, k: Books, step: Step)
    requires Sound(p) && Kept(p, k) && Metering(p, k, step)
    ensures WithinReservation(k.state, EventOf(p, k, step))
  {
    match step {
      case Ask(request, _, _) => NoWorstCaseIsNegative(p, request);
      case Answer(id, completion) =>
        if id in k.state.held {
          WorstCaseBoundsCost(p, k.asked[id], completion);
        }
      case Other(_) =>
    }
  }

  /** A run in which every reservation is a worst case and every charge a metered cost is honest. */
  lemma {:induction false} MeteredRunIsHonest(b: Budget, p: Prices, k: Books, steps: seq<Step>)
    requires Sound(p) && Kept(p, k) && AllMetered(b, p, k, steps)
    ensures Honest(b, k.state, Events(b, p, k, steps))
    decreases |steps|
  {
    if steps != [] {
      var rest := Events(b, p, Next(b, p, k, steps[0]), steps[1..]);
      MeteredStepIsHonest(p, k, steps[0]);
      StepKeepsBooks(b, p, k, steps[0]);
      MeteredRunIsHonest(b, p, Next(b, p, k, steps[0]), steps[1..]);
      assert ([EventOf(p, k, steps[0])] + rest)[1..] == rest;
    }
  }

  /** Whatever the interleaving, calls that reserve their worst case and stay within their
      estimate keep every cap: the token estimate and the protocol together. */
  lemma MeteredRunsKeepTheCaps(b: Budget, p: Prices, s: State, steps: seq<Step>)
    requires Sound(p) && Start(b, s) && AllMetered(b, p, Books(s, map[], None), steps)
    ensures var t := Run(b, s, Events(b, p, Books(s, map[], None), steps));
            && t.held.Keys == t.phase.Keys
            && (forall scope :: Exposure(t, scope) <= Cap(b, scope))
            && (forall scope :: SpendProtocol.Spent(t.rows, ScopeFilter(scope)) <= Cap(b, scope))
  {
    MeteredRunIsHonest(b, p, Books(s, map[], None), steps);
    EveryInterleavingKeepsTheCaps(b, s, Events(b, p, Books(s, map[], None), steps));
  }
}
