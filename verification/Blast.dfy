/**
 Blast radius: two searches of the caller relation, up to a number of hops.
 */
module Blast {
  import opened Symbols

  /** The callers of every called symbol, in the order the graph yields them. */
  type Callers = map<Path, seq<Path>>

  function CallersOf(g: Callers, name: Path): set<Path> {
    if name in g then set caller <- g[name] else {}
  }

  function CallersOfAll(g: Callers, names: set<Path>): set<Path> {
    set name <- names, caller <- CallersOf(g, name) :: caller
  }

  // ----------------------------------------------------- what is to be reached --

  /** Every symbol calls the one before it. */
  predicate CallPath(g: Callers, path: seq<Path>) {
    path != [] && forall i :: 0 <= i < |path| - 1 ==> path[i + 1] in CallersOf(g, path[i])
  }

  /** `path` is a chain of at most `hops` calls, from `name` down to one of `starts`. */
  predicate Reaches(g: Callers, starts: set<Path>, hops: nat, name: Path, path: seq<Path>) {
    CallPath(g, path) && |path| <= hops + 1 && path[0] in starts && path[|path| - 1] == name
  }

  /** Round by round: the starts, and the callers of everything reached a round before. */
  function Within(g: Callers, starts: set<Path>, hops: nat): set<Path> {
    if hops == 0 then starts
    else Within(g, starts, hops - 1) + CallersOfAll(g, Within(g, starts, hops - 1))
  }

  lemma {:induction false} WithinHasPath(g: Callers, starts: set<Path>, hops: nat, name: Path) returns (path: seq<Path>)
    requires name in Within(g, starts, hops)
    ensures Reaches(g, starts, hops, name, path)
  {
    if hops == 0 {
      path := [name];
    } else if name in Within(g, starts, hops - 1) {
      path := WithinHasPath(g, starts, hops - 1, name);
    } else {
      var callee :| callee in Within(g, starts, hops - 1) && name in CallersOf(g, callee);
      var shorter := WithinHasPath(g, starts, hops - 1, callee);
      path := shorter + [name];
    }
  }

  lemma {:induction false} PathIsWithin(g: Callers, starts: set<Path>, hops: nat, name: Path, path: seq<Path>)
    requires Reaches(g, starts, hops, name, path)
    ensures name in Within(g, starts, hops)
    decreases |path|
  {
    if |path| == 1 {
      StartsWithin(g, starts, hops);
    } else {
      var shorter := path[..|path| - 1];
      PathIsWithin(g, starts, hops - 1, shorter[|shorter| - 1], shorter);
      assert path[|path| - 2 + 1] in CallersOf(g, path[|path| - 2]);
    }
  }

  lemma {:induction false} StartsWithin(g: Callers, starts: set<Path>, hops: nat)
    ensures starts <= Within(g, starts, hops)
  {
    if hops > 0 {
      StartsWithin(g, starts, hops - 1);
    }
  }

  /** A symbol is within `hops` exactly if a call path of at most that length leads to it. */
  lemma WithinExactlyWhenReached(g: Callers, starts: set<Path>, hops: nat, name: Path)
    ensures name in Within(g, starts, hops) <==> exists path :: Reaches(g, starts, hops, name, path)
  {
    if name in Within(g, starts, hops) {
      var path := WithinHasPath(g, starts, hops, name);
    }
    if path :| Reaches(g, starts, hops, name, path) {
      PathIsWithin(g, starts, hops, name, path);
    }
  }

  lemma {:induction false} WithinStops(g: Callers, starts: set<Path>, few: nat, many: nat)
    requires few <= many && CallersOfAll(g, Within(g, starts, few)) <= Within(g, starts, few)
    ensures Within(g, starts, many) == Within(g, starts, few)
    decreases many
  {
    if few < many {
      WithinStops(g, starts, few, many - 1);
    }
  }

  function Rounds(hops: int): nat {
    if hops < 0 then 0 else hops
  }

  // ------------------------------------------------------ search by frontiers --

  lemma CallersOfBoth(g: Callers, a: set<Path>, b: set<Path>)
    ensures CallersOfAll(g, a + b) == CallersOfAll(g, a) + CallersOfAll(g, b)
  {
  }

  /** All callers of what is reached and not in the frontier are reached. */
  predicate Explored(g: Callers, reached: set<Path>, frontier: set<Path>) {
    frontier <= reached && CallersOfAll(g, reached - frontier) <= reached
  }

  lemma CallersOfReached(g: Callers, reached: set<Path>, frontier: set<Path>)
    requires Explored(g, reached, frontier)
    ensures reached + CallersOfAll(g, reached) == reached + (CallersOfAll(g, frontier) - reached)
  {
    CallersOfBoth(g, frontier, reached - frontier);
    assert frontier + (reached - frontier) == reached;
  }

  /** One round: what is reached next, and what of it has all its callers in it. */
  lemma FrontierMoves(g: Callers, touched: set<Path>, i: nat, reached: set<Path>, frontier: set<Path>, next: set<Path>)
    requires reached == Within(g, touched, i) && Explored(g, reached, frontier)
    requires next == CallersOfAll(g, frontier) - reached
    ensures reached + next == Within(g, touched, i + 1) && Explored(g, reached + next, next)
    ensures next == {} ==> CallersOfAll(g, reached) <= reached
  {
    CallersOfReached(g, reached, frontier);
    assert reached + next - next == reached;
    if next == {} {
      assert reached + CallersOfAll(g, reached) == reached;
    }
  }

  /** The loop of `blast_radius`. */
  method ReachByFrontiers(g: Callers, touched: set<Path>, hops: int) returns (reached: set<Path>)
    ensures reached == Within(g, touched, Rounds(hops))
  {
    reached := touched;
    var frontier := reached;
    NothingLeftOut(g, touched);
    for i := 0 to Rounds(hops)
      invariant reached == Within(g, touched, i)
      invariant Explored(g, reached, frontier)
    {
      var next := CallersOfAll(g, frontier) - reached;
      FrontierMoves(g, touched, i, reached, frontier, next);
      if next == {} {
        WithinStops(g, touched, i, Rounds(hops));
        break;
      }
      reached := reached + next;
      frontier := next;
    }
  }

  lemma NothingLeftOut(g: Callers, touched: set<Path>)
    ensures Explored(g, touched, touched)
  {
    assert touched - touched == {};
  }

  // ----------------------------------------------------------- search by queue --

  type Entry = (Path, nat)

  function Nodes(g: Callers): set<Path> {
    g.Keys + CallersOfAll(g, g.Keys)
  }

  /** `name` waits in the queue at this depth. */
  predicate Waits(queue: seq<Entry>, name: Path, depth: nat) {
    (name, depth) in queue
  }

  ghost predicate Entered(g: Callers, fqn: Path, limit: nat, d: nat, found: set<Path>, e: Entry) {
    e.0 in found && ((e.1 == d && e.0 in Within(g, {fqn}, d)) || (e.1 == d + 1 && d < limit))
  }

  /** The queue holds depth `d` and then depth `d + 1`. Everything within `d` is found;
      what is found beyond `d` still waits; what is within `d` and does not wait has all
      its callers found, except `busy`. */
  ghost predicate Searching(g: Callers, fqn: Path, limit: nat, d: nat, queue: seq<Entry>, found: set<Path>,
                            busy: set<Path>) {
    && d <= limit
    && Within(g, {fqn}, d) <= found <= Within(g, {fqn}, if d < limit then d + 1 else d)
    && (forall i :: 0 <= i < |queue| ==> Entered(g, fqn, limit, d, found, queue[i]))
    && (forall i, j :: 0 <= i < j < |queue| ==> queue[i].1 <= queue[j].1)
    && (forall name <- found :: name !in Within(g, {fqn}, d) ==> Waits(queue, name, d + 1))
    && (forall name <- Within(g, {fqn}, d) ::
          name !in busy && !Waits(queue, name, d) && d < limit ==> CallersOf(g, name) <= found)
  }

  /** Once no entry of depth `d` waits, everything within one hop more is found. */
  lemma LevelDone(g: Callers, fqn: Path, limit: nat, d: nat, queue: seq<Entry>, found: set<Path>)
    requires Searching(g, fqn, limit, d, queue, found, {}) && d < limit
    requires forall i :: 0 <= i < |queue| ==> queue[i].1 == d + 1
    ensures found == Within(g, {fqn}, d + 1)
  {
    forall name <- Within(g, {fqn}, d) ensures CallersOf(g, name) <= found {
      assert !Waits(queue, name, d);
    }
  }

  lemma NextLevel(g: Callers, fqn: Path, limit: nat, d: nat, queue: seq<Entry>, found: set<Path>)
    requires Searching(g, fqn, limit, d, queue, found, {}) && queue != [] && queue[0].1 != d
    ensures d < limit && Searching(g, fqn, limit, d + 1, queue, found, {})
  {
    LevelDone(g, fqn, limit, d, queue, found);
    forall name <- Within(g, {fqn}, d + 1) | !Waits(queue, name, d + 1) ensures CallersOf(g, name) <= found {
      assert name in Within(g, {fqn}, d);
      assert !Waits(queue, name, d);
    }
  }

  lemma SearchDone(g: Callers, fqn: Path, limit: nat, d: nat, found: set<Path>)
    requires Searching(g, fqn, limit, d, [], found, {})
    ensures found == Within(g, {fqn}, limit)
  {
    assert found == Within(g, {fqn}, d);
    if d < limit {
      LevelDone(g, fqn, limit, d, [], found);
      WithinStops(g, {fqn}, d, limit);
    }
  }

  lemma PopKeepsSearching(g: Callers, fqn: Path, limit: nat, d: nat, queue: seq<Entry>, found: set<Path>)
    requires Searching(g, fqn, limit, d, queue, found, {}) && queue != [] && queue[0].1 == d
    ensures Searching(g, fqn, limit, d, queue[1..], found, if d < limit then {queue[0].0} else {})
  {
    assert queue == [queue[0]] + queue[1..];
  }

  lemma PushKeepsSearching(g: Callers, fqn: Path, limit: nat, d: nat, queue: seq<Entry>, found: set<Path>,
                           current: Path, caller: Path)
    requires Searching(g, fqn, limit, d, queue, found, {current}) && d < limit
    requires current in Within(g, {fqn}, d) && caller in CallersOf(g, current) && caller !in found
    ensures Searching(g, fqn, limit, d, queue + [(caller, d + 1)], found + {caller}, {current})
  {
    var queue' := queue + [(caller, d + 1)];
    assert caller in Within(g, {fqn}, d + 1);
    forall i | 0 <= i < |queue'| ensures Entered(g, fqn, limit, d, found + {caller}, queue'[i]) {
      assert i < |queue| ==> Entered(g, fqn, limit, d, found, queue[i]);
    }
    forall i | 0 <= i < |queue| ensures queue[i].1 <= d + 1 {
      assert Entered(g, fqn, limit, d, found, queue[i]);
    }
    forall name <- found + {caller} | name !in Within(g, {fqn}, d) ensures Waits(queue', name, d + 1) {
      if name == caller { assert queue'[|queue|] == (caller, d + 1); }
    }
  }

  lemma ExpandedKeepsSearching(g: Callers, fqn: Path, limit: nat, d: nat, queue: seq<Entry>, found: set<Path>,
                               current: Path)
    requires Searching(g, fqn, limit, d, queue, found, {current}) && CallersOf(g, current) <= found
    ensures Searching(g, fqn, limit, d, queue, found, {})
  {
  }

  lemma FoundIsWithin(g: Callers, fqn: Path, limit: nat, d: nat, queue: seq<Entry>, found: set<Path>, busy: set<Path>)
    requires Searching(g, fqn, limit, d, queue, found, busy)
    ensures found <= Within(g, {fqn}, limit)
  {
    WithinGrows(g, {fqn}, if d < limit then d + 1 else d, limit);
  }

  lemma {:induction false} WithinGrows(g: Callers, starts: set<Path>, few: nat, many: nat)
    requires few <= many
    ensures Within(g, starts, few) <= Within(g, starts, many)
    decreases many
  {
    if few < many {
      WithinGrows(g, starts, few, many - 1);
    }
  }

  /** The head of the queue, at the depth it is taken at. */
  lemma HeadDepth(g: Callers, fqn: Path, limit: nat, d: nat, queue: seq<Entry>, found: set<Path>) returns (d': nat)
    requires Searching(g, fqn, limit, d, queue, found, {}) && queue != []
    ensures d' == queue[0].1 && Searching(g, fqn, limit, d', queue, found, {})
    ensures d' <= limit && queue[0].0 in Within(g, {fqn}, d')
  {
    d' := queue[0].1;
    if d' != d {
      NextLevel(g, fqn, limit, d, queue, found);
    }
  }

  lemma LeftToFind(all: set<Path>, found: set<Path>, found': set<Path>)
    requires found < found' <= all
    ensures all - found' < all - found
  {
    var x :| x in found' && x !in found;
    assert x in all - found;
  }

  lemma SearchBegins(g: Callers, fqn: Path, limit: nat)
    ensures Searching(g, fqn, limit, 0, [(fqn, 0)], {} + {fqn}, {})
  {
    assert [(fqn, 0)][0] == (fqn, 0);
  }

  /** What one symbol's callers add to what is reached and to the queue. */
  function Visited(fqn: Path, depth: nat, reached: set<Path>, queue: seq<Entry>, callers: seq<Path>)
    : (set<Path>, seq<Entry>)
  {
    if callers == [] then (reached, queue)
    else
      var (r, q) := Visited(fqn, depth, reached, queue, callers[..|callers| - 1]);
      var caller := callers[|callers| - 1];
      if caller in r || caller == fqn then (r, q) else (r + {caller}, q + [(caller, depth + 1)])
  }

  lemma {:induction false} VisitedKeepsSearching(g: Callers, fqn: Path, limit: nat, depth: nat, reached: set<Path>,
                                                 queue: seq<Entry>, current: Path, callers: seq<Path>)
    requires Searching(g, fqn, limit, depth, queue, reached + {fqn}, {current}) && depth < limit
    requires current in Within(g, {fqn}, depth) && forall caller <- callers :: caller in CallersOf(g, current)
    ensures var (r, q) := Visited(fqn, depth, reached, queue, callers);
            && Searching(g, fqn, limit, depth, q, r + {fqn}, {current})
            && (forall caller <- callers :: caller in r + {fqn})
            && reached <= r && (r == reached ==> q == queue)
  {
    if callers != [] {
      var front, caller := callers[..|callers| - 1], callers[|callers| - 1];
      VisitedKeepsSearching(g, fqn, limit, depth, reached, queue, current, front);
      var (r, q) := Visited(fqn, depth, reached, queue, front);
      assert callers == front + [caller] && caller in callers;
      OneVisited(g, fqn, limit, depth, r, q, current, caller);
    }
  }

  lemma OneVisited(g: Callers, fqn: Path, limit: nat, depth: nat, reached: set<Path>, queue: seq<Entry>, current: Path,
                   caller: Path)
    requires Searching(g, fqn, limit, depth, queue, reached + {fqn}, {current}) && depth < limit
    requires current in Within(g, {fqn}, depth) && caller in CallersOf(g, current)
    ensures caller !in reached && caller != fqn ==>
              Searching(g, fqn, limit, depth, queue + [(caller, depth + 1)], reached + {caller} + {fqn}, {current})
  {
    if caller !in reached && caller != fqn {
      PushKeepsSearching(g, fqn, limit, depth, queue, reached + {fqn}, current, caller);
      assert reached + {fqn} + {caller} == reached + {caller} + {fqn};
    }
  }

  /** Visiting all its callers completes a symbol. */
  lemma Expanded(g: Callers, fqn: Path, limit: nat, depth: nat, reached: set<Path>, queue: seq<Entry>, current: Path)
    requires Searching(g, fqn, limit, depth, queue, reached + {fqn}, {current}) && depth < limit
    requires current in Within(g, {fqn}, depth)
    ensures var (r, q) := Visited(fqn, depth, reached, queue, if current in g then g[current] else []);
            && Searching(g, fqn, limit, depth, q, r + {fqn}, {})
            && ((r == reached && q == queue) || Within(g, {fqn}, limit) - r < Within(g, {fqn}, limit) - reached)
  {
    var callers := if current in g then g[current] else [];
    VisitedKeepsSearching(g, fqn, limit, depth, reached, queue, current, callers);
    var (r, q) := Visited(fqn, depth, reached, queue, callers);
    ExpandedKeepsSearching(g, fqn, limit, depth, q, r + {fqn}, current);
    FoundIsWithin(g, fqn, limit, depth, q, r + {fqn}, {});
    if r != reached {
      LeftToFind(Within(g, {fqn}, limit), reached, r);
    }
  }

  lemma {:induction false} VisitedLeavesStart(fqn: Path, depth: nat, reached: set<Path>, queue: seq<Entry>,
                                              callers: seq<Path>)
    requires fqn !in reached
    ensures fqn !in Visited(fqn, depth, reached, queue, callers).0
  {
    if callers != [] {
      VisitedLeavesStart(fqn, depth, reached, queue, callers[..|callers| - 1]);
    }
  }

  method VisitCallers(fqn: Path, depth: nat, reached: set<Path>, queue: seq<Entry>, callers: seq<Path>)
    returns (reached': set<Path>, queue': seq<Entry>)
    ensures (reached', queue') == Visited(fqn, depth, reached, queue, callers)
  {
    reached', queue' := reached, queue;
    for i := 0 to |callers|
      invariant (reached', queue') == Visited(fqn, depth, reached, queue, callers[..i])
    {
      assert callers[..i + 1][..i] == callers[..i];
      if callers[i] !in reached' && callers[i] != fqn {
        reached', queue' := reached' + {callers[i]}, queue' + [(callers[i], depth + 1)];
      }
    }
    assert callers[..|callers|] == callers;
  }

  /** The loop of `SqliteGraphStore.callers_of`. */
  method ReachByQueue(g: Callers, fqn: Path, hops: int) returns (reached: set<Path>)
    ensures reached == Within(g, {fqn}, Rounds(hops)) - {fqn}
  {
    reached := {};
    ghost var d, limit := 0, Rounds(hops);
    if fqn !in Nodes(g) {
      WithinStops(g, {fqn}, 0, limit);
      return;
    }
    var queue: seq<Entry> := [(fqn, 0)];
    SearchBegins(g, fqn, limit);
    while queue != []
      invariant fqn !in reached && Searching(g, fqn, limit, d, queue, reached + {fqn}, {})
      decreases Within(g, {fqn}, limit) - reached, |queue|
    {
      var (current, depth) := queue[0];
      d := HeadDepth(g, fqn, limit, d, queue, reached + {fqn});
      PopKeepsSearching(g, fqn, limit, d, queue, reached + {fqn});
      queue := queue[1..];
      if depth < hops {
        var callers := if current in g then g[current] else [];
        Expanded(g, fqn, limit, d, reached, queue, current);
        VisitedLeavesStart(fqn, depth, reached, queue, callers);
        reached, queue := VisitCallers(fqn, depth, reached, queue, callers);
      }
    }
    SearchDone(g, fqn, limit, d, reached + {fqn});
    assert reached == reached + {fqn} - {fqn};
  }
}
