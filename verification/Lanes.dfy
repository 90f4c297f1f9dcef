/**
 The scheduler's bounded queue: a lane for each repository, and a rotation over the lanes.

 `Queue` is the state the source keeps in `_lanes`, `_order`, `_depth` and
 `_waiting`; `Admit` and `Dispatch` are `_enqueue` and the part of `_next` that does
 not wait. Both are atomic on the event loop.
 */
module Lanes {
  import opened Options

  datatype Queue = Queue(lanes: map<string, seq<string>>, order: seq<string>, depth: int, waiting: bool)

  datatype Action = Enqueue(repo: string, id: string) | Next

  /** A repository and the run of it that was dispatched. */
  type Turn = (string, string)

  const EMPTY := Queue(map[], [], 0, false)

  function Lane(q: Queue, repo: string): seq<string> {
    if repo in q.lanes then q.lanes[repo] else []
  }

  predicate Full(max: nat, q: Queue) {
    q.depth >= max
  }

  function Admit(max: nat, q: Queue, repo: string, id: string): Queue {
    if Full(max, q) then q
    else Queue(q.lanes[repo := Lane(q, repo) + [id]],
               if Lane(q, repo) == [] then q.order + [repo] else q.order,
               q.depth + 1, true)
  }

  function Dispatch(q: Queue): (Queue, Option<Turn>)
    decreases |q.order|
  {
    if q.order == [] then (q.(waiting := false), None)
    else
      var repo := q.order[0];
      if Lane(q, repo) == [] then Dispatch(q.(order := q.order[1..]))
      else
        var rest := q.lanes[repo][1..];
        (Queue(if rest == [] then q.lanes - {repo} else q.lanes[repo := rest],
               q.order[1..] + if rest == [] then [] else [repo],
               q.depth - 1, q.waiting),
         Some((repo, q.lanes[repo][0])))
  }

  function Apply(max: nat, q: Queue, a: Action): (Queue, seq<Turn>) {
    match a
    case Enqueue(repo, id) => (Admit(max, q, repo, id), [])
    case Next => var (q', turn) := Dispatch(q); (q', if turn.Some? then [turn.value] else [])
  }

  /** The queue after a series of actions, and the turns that were given. */
  function Run(max: nat, q: Queue, actions: seq<Action>): (Queue, seq<Turn>)
    decreases |actions|
  {
    if actions == [] then (q, [])
    else
      var (q', turn) := Apply(max, q, actions[0]);
      var (q'', turns) := Run(max, q', actions[1..]);
      (q'', turn + turns)
  }

  // ------------------------------------------------------------ the invariant --

  predicate Distinct(s: seq<string>) {
    forall i, j :: 0 <= i < j < |s| ==> s[i] != s[j]
  }

  /** The number of runs waiting in the lanes of `order`. */
  function Waiting(lanes: map<string, seq<string>>, order: seq<string>): nat {
    if order == [] then 0
    else Waiting(lanes, order[1..]) + if order[0] in lanes then |lanes[order[0]]| else 0
  }

  ghost predicate Valid(max: nat, q: Queue) {
    && Distinct(q.order)
    && (forall repo :: repo in q.order <==> repo in q.lanes)
    && (forall repo <- q.lanes :: q.lanes[repo] != [])
    && q.depth == Waiting(q.lanes, q.order) <= max
    && (q.depth > 0 ==> q.waiting)
  }

  lemma {:induction false} WaitingAppend(lanes: map<string, seq<string>>, a: seq<string>, b: seq<string>)
    ensures Waiting(lanes, a + b) == Waiting(lanes, a) + Waiting(lanes, b)
  {
    if a == [] {
      assert a + b == b;
    } else {
      WaitingAppend(lanes, a[1..], b);
      assert (a + b)[1..] == a[1..] + b;
    }
  }

  lemma {:induction false} WaitingElsewhere(lanes: map<string, seq<string>>, lanes': map<string, seq<string>>,
                                            order: seq<string>)
    requires forall repo <- order ::
               (repo in lanes <==> repo in lanes') && (repo in lanes ==> lanes[repo] == lanes'[repo])
    ensures Waiting(lanes, order) == Waiting(lanes', order)
  {
    if order != [] {
      WaitingElsewhere(lanes, lanes', order[1..]);
    }
  }

  /** Changing one lane changes the number of waiting runs by its own length. */
  lemma {:induction false} WaitingUpdate(lanes: map<string, seq<string>>, order: seq<string>, repo: string,
                                         lane: seq<string>)
    requires Distinct(order) && repo in order && repo in lanes
    ensures Waiting(lanes[repo := lane], order) == Waiting(lanes, order) - |lanes[repo]| + |lane|
  {
    if order[0] == repo {
      WaitingElsewhere(lanes, lanes[repo := lane], order[1..]);
    } else {
      WaitingUpdate(lanes, order[1..], repo, lane);
    }
  }

  lemma {:induction false} OrderWithinWaiting(lanes: map<string, seq<string>>, order: seq<string>)
    requires forall repo <- order :: repo in lanes && lanes[repo] != []
    ensures |order| <= Waiting(lanes, order)
  {
    if order != [] {
      OrderWithinWaiting(lanes, order[1..]);
    }
  }

  lemma AdmitKeepsValid(max: nat, q: Queue, repo: string, id: string)
    requires Valid(max, q)
    ensures Valid(max, Admit(max, q, repo, id))
  {
    if !Full(max, q) {
      var q' := Admit(max, q, repo, id);
      if repo in q.lanes {
        WaitingUpdate(q.lanes, q.order, repo, q.lanes[repo] + [id]);
      } else {
        WaitingAppend(q'.lanes, q.order, [repo]);
        WaitingElsewhere(q.lanes, q'.lanes, q.order);
        assert [repo][1..] == [];
      }
    }
  }

  lemma DispatchKeepsValid(max: nat, q: Queue)
    requires Valid(max, q)
    ensures Valid(max, Dispatch(q).0)
  {
    if q.order != [] {
      var repo := q.order[0];
      assert repo in q.lanes;
      if q.lanes[repo][1..] == [] {
        assert q.order[1..] + [] == q.order[1..];
        LaneGoneKeepsValid(max, q);
      } else {
        LaneRotatedKeepsValid(max, q);
      }
    }
  }

  lemma LaneGoneKeepsValid(max: nat, q: Queue)
    requires Valid(max, q) && q.order != [] && |q.lanes[q.order[0]]| == 1
    ensures Valid(max, Queue(q.lanes - {q.order[0]}, q.order[1..], q.depth - 1, q.waiting))
  {
    WaitingElsewhere(q.lanes, q.lanes - {q.order[0]}, q.order[1..]);
    forall r ensures r in q.order[1..] <==> r in q.lanes - {q.order[0]} {
      assert r in q.order <==> r == q.order[0] || r in q.order[1..];
    }
  }

  lemma LaneRotatedKeepsValid(max: nat, q: Queue)
    requires Valid(max, q) && q.order != [] && |q.lanes[q.order[0]]| > 1
    ensures Valid(max,
                  Queue(q.lanes[q.order[0] := q.lanes[q.order[0]][1..]], q.order[1..] + [q.order[0]],
                        q.depth - 1, q.waiting))
  {
    RotatedIsDistinct(q.order);
    LaneShortened(q.lanes, q.order);
  }

  lemma RotatedIsDistinct(order: seq<string>)
    requires order != [] && Distinct(order)
    ensures Distinct(order[1..] + [order[0]])
    ensures forall r :: r in order[1..] + [order[0]] <==> r in order
  {
    assert order == [order[0]] + order[1..];
  }

  lemma LaneShortened(lanes: map<string, seq<string>>, order: seq<string>)
    requires order != [] && Distinct(order) && order[0] in lanes && lanes[order[0]] != []
    ensures Waiting(lanes[order[0] := lanes[order[0]][1..]], order[1..] + [order[0]]) == Waiting(lanes, order) - 1
  {
    var lanes' := lanes[order[0] := lanes[order[0]][1..]];
    WaitingElsewhere(lanes, lanes', order[1..]);
    WaitingAppend(lanes', order[1..], [order[0]]);
    assert [order[0]][1..] == [];
  }

  /** Whatever is enqueued and dispatched, the rotation lists exactly the non-empty lanes,
      each once; the depth is the number of runs waiting, at most the cap; and waiting work
      has the wake-up flag set. */
  lemma {:induction false} RunKeepsValid(max: nat, q: Queue, actions: seq<Action>)
    requires Valid(max, q)
    ensures Valid(max, Run(max, q, actions).0)
    decreases |actions|
  {
    if actions != [] {
      StepKeepsValid(max, q, actions[0]);
      RunKeepsValid(max, Apply(max, q, actions[0]).0, actions[1..]);
    }
  }

  lemma StepKeepsValid(max: nat, q: Queue, a: Action)
    requires Valid(max, q)
    ensures Valid(max, Apply(max, q, a).0)
  {
    match a {
      case Enqueue(repo, id) => AdmitKeepsValid(max, q, repo, id);
      case Next => DispatchKeepsValid(max, q);
    }
  }

  // -------------------------------------------------------------- FIFO per lane --

  /** The ids admitted for one repository, in order. */
  function Admitted(max: nat, q: Queue, actions: seq<Action>, repo: string): seq<string>
    decreases |actions|
  {
    if actions == [] then []
    else
      (if actions[0].Enqueue? && actions[0].repo == repo && !Full(max, q) then [actions[0].id] else [])
      + Admitted(max, Apply(max, q, actions[0]).0, actions[1..], repo)
  }

  function TurnsOf(turns: seq<Turn>, repo: string): seq<string> {
    if turns == [] then []
    else (if turns[0].0 == repo then [turns[0].1] else []) + TurnsOf(turns[1..], repo)
  }

  /** One step takes from the front of a lane what it gives a turn to, and adds at its back. */
  lemma StepIsFifo(max: nat, q: Queue, a: Action, repo: string)
    requires Valid(max, q)
    ensures Lane(q, repo) + (if a.Enqueue? && a.repo == repo && !Full(max, q) then [a.id] else [])
         == TurnsOf(Apply(max, q, a).1, repo) + Lane(Apply(max, q, a).0, repo)
  {
    if a.Next? && q.order != [] {
      assert q.order[0] in q.lanes;
      var turn := Apply(max, q, a).1;
      assert turn[1..] == [];
    }
  }

  /** Nothing is lost, duplicated or reordered: for every repository, what was waiting and
      what was admitted since is what was dispatched, in order, and then what still waits. */
  lemma {:induction false} LanesAreFifo(max: nat, q: Queue, actions: seq<Action>, repo: string)
    requires Valid(max, q)
    ensures Lane(q, repo) + Admitted(max, q, actions, repo)
         == TurnsOf(Run(max, q, actions).1, repo) + Lane(Run(max, q, actions).0, repo)
    decreases |actions|
  {
    if actions != [] {
      var (q', turn) := Apply(max, q, actions[0]);
      StepKeepsValid(max, q, actions[0]);
      StepIsFifo(max, q, actions[0], repo);
      LanesAreFifo(max, q', actions[1..], repo);
      TurnsOfAppend(turn, Run(max, q', actions[1..]).1, repo);
      Chain(Lane(q, repo),
            if actions[0].Enqueue? && actions[0].repo == repo && !Full(max, q) then [actions[0].id] else [],
            TurnsOf(turn, repo), Lane(q', repo), Admitted(max, q', actions[1..], repo),
            TurnsOf(Run(max, q', actions[1..]).1, repo), Lane(Run(max, q', actions[1..]).0, repo));
    }
  }

  lemma Chain<T>(lane: seq<T>, admitted: seq<T>, turns: seq<T>, lane': seq<T>, later: seq<T>, turns': seq<T>,
                 last: seq<T>)
    requires lane + admitted == turns + lane' && lane' + later == turns' + last
    ensures lane + (admitted + later) == (turns + turns') + last
  {
    calc {
      lane + (admitted + later);
      (lane + admitted) + later;
      (turns + lane') + later;
      turns + (lane' + later);
      turns + (turns' + last);
      (turns + turns') + last;
    }
  }

  lemma Associates<T>(a: seq<T>, b: seq<T>, c: seq<T>)
    ensures a + (b + c) == (a + b) + c
  {
  }

  lemma {:induction false} TurnsOfAppend(a: seq<Turn>, b: seq<Turn>, repo: string)
    ensures TurnsOf(a + b, repo) == TurnsOf(a, repo) + TurnsOf(b, repo)
  {
    if a == [] {
      assert a + b == b;
    } else {
      TurnsOfAppend(a[1..], b, repo);
      assert (a + b)[0] == a[0] && (a + b)[1..] == a[1..] + b;
      Associates(if a[0].0 == repo then [a[0].1] else [], TurnsOf(a[1..], repo), TurnsOf(b, repo));
    }
  }

  // ------------------------------------------------------------ bounded waiting --

  function Nexts(actions: seq<Action>): nat {
    if actions == [] then 0 else (if actions[0].Next? then 1 else 0) + Nexts(actions[1..])
  }

  /** How many further dispatches a run can wait for: its repository is at `k` in the
      rotation and `p` runs are ahead of it in its lane. */
  function Bound(max: nat, k: nat, p: nat): nat {
    k + 1 + p * max
  }

  /** `p` full turns of the rotation. */
  function Rounds(max: nat, p: nat): nat {
    if p == 0 then 0 else max + Rounds(max, p - 1)
  }

  lemma {:induction false} RoundsAre(max: nat, p: nat)
    ensures Rounds(max, p) == p * max
  {
    if p > 0 {
      RoundsAre(max, p - 1);
      assert p * max == (p - 1) * max + max;
    }
  }

  /** An admission moves nothing in the rotation or in a lane. */
  lemma AdmitMovesNothing(max: nat, q: Queue, repo: string, id: string, k: nat)
    requires Valid(max, q) && k < |q.order|
    ensures var q' := Admit(max, q, repo, id);
            k < |q'.order| && q'.order[k] == q.order[k] && Lane(q, q.order[k]) <= Lane(q', q.order[k])
  {
  }

  /** A dispatch serves the head of the rotation and moves everyone else up by one. */
  lemma DispatchMovesUp(max: nat, q: Queue, k: nat)
    requires Valid(max, q) && k < |q.order|
    ensures var (q', turn) := Dispatch(q);
            && Lane(q, q.order[0]) != [] && turn == Some((q.order[0], Lane(q, q.order[0])[0]))
            && (k > 0 ==>
                  && k - 1 < |q'.order| && q'.order[k - 1] == q.order[k]
                  && Lane(q', q.order[k]) == Lane(q, q.order[k]))
            && (k == 0 && |Lane(q, q.order[0])| > 1 ==>
                  && |q'.order| == |q.order| && q'.order[|q.order| - 1] == q.order[0]
                  && Lane(q', q.order[0]) == Lane(q, q.order[0])[1..])
  {
    assert q.order[0] in q.lanes;
  }

  /** The run of `turn` waits: its repository is at `k` in the rotation, `p` runs are ahead in its lane. */
  predicate Ahead(q: Queue, turn: Turn, k: nat, p: nat) {
    && k < |q.order| && q.order[k] == turn.0
    && p < |Lane(q, turn.0)| && Lane(q, turn.0)[p] == turn.1
  }

  lemma AdmitKeepsAhead(max: nat, q: Queue, a: Action, turn: Turn, k: nat, p: nat)
    requires Valid(max, q) && Ahead(q, turn, k, p) && a.Enqueue?
    ensures Ahead(Apply(max, q, a).0, turn, k, p) && Apply(max, q, a).1 == []
  {
    AdmitMovesNothing(max, q, a.repo, a.id, k);
  }

  /** A dispatch serves a run nothing is ahead of, and brings any other closer to its turn. */
  lemma DispatchBringsCloser(max: nat, q: Queue, turn: Turn, k: nat, p: nat) returns (k': nat, p': nat)
    requires Valid(max, q) && Ahead(q, turn, k, p)
    ensures Dispatch(q).1.Some?
    ensures k == 0 && p == 0 ==> Dispatch(q).1 == Some(turn)
    ensures !(k == 0 && p == 0) ==> Ahead(Dispatch(q).0, turn, k', p') && k' + Rounds(max, p') + 1 <= k + Rounds(max, p)
  {
    DispatchMovesUp(max, q, k);
    OrderWithinWaiting(q.lanes, q.order);
    k', p' := k, p;
    if k > 0 {
      k' := k - 1;
    } else if p > 0 {
      k', p' := |q.order| - 1, p - 1;
    }
  }

  lemma TurnsUnfold(max: nat, q: Queue, actions: seq<Action>)
    requires actions != []
    ensures var rest := Run(max, Apply(max, q, actions[0]).0, actions[1..]).1;
            Run(max, q, actions).1
            == if actions[0].Next? && Dispatch(q).1.Some? then [Dispatch(q).1.value] + rest else rest
  {
    var rest := Run(max, Apply(max, q, actions[0]).0, actions[1..]).1;
    assert [] + rest == rest;
  }

  lemma {:induction false} WaitsAtMost(max: nat, q: Queue, actions: seq<Action>, turn: Turn, k: nat, p: nat, n: nat)
    requires Valid(max, q) && Ahead(q, turn, k, p) && k + Rounds(max, p) < n <= Nexts(actions)
    ensures ServedWithin(Run(max, q, actions).1, turn, n)
    decreases |actions|
  {
    var q' := Apply(max, q, actions[0]).0;
    StepKeepsValid(max, q, actions[0]);
    if actions[0].Enqueue? {
      AdmitKeepsAhead(max, q, actions[0], turn, k, p);
      WaitsAtMost(max, q', actions[1..], turn, k, p, n);
      TurnsUnfold(max, q, actions);
    } else {
      var k', p' := DispatchBringsCloser(max, q, turn, k, p);
      if k == 0 && p == 0 {
        ServedNow(max, q, actions, turn, n);
      } else {
        WaitsAtMost(max, q', actions[1..], turn, k', p', n - 1);
        ServedNext(max, q, actions, turn, n - 1, n);
      }
    }
  }

  /** A waiting run is dispatched within its bound, whatever is enqueued meanwhile. */
  lemma BoundedWaiting(max: nat, q: Queue, actions: seq<Action>, turn: Turn, k: nat, p: nat)
    requires Valid(max, q) && Ahead(q, turn, k, p)
    requires Nexts(actions) >= Bound(max, k, p)
    ensures ServedWithin(Run(max, q, actions).1, turn, Bound(max, k, p))
  {
    RoundsAre(max, p);
    WaitsAtMost(max, q, actions, turn, k, p, Bound(max, k, p));
  }

  lemma ServedNow(max: nat, q: Queue, actions: seq<Action>, turn: Turn, bound: nat)
    requires actions != [] && actions[0].Next? && Dispatch(q).1 == Some(turn) && bound > 0
    ensures ServedWithin(Run(max, q, actions).1, turn, bound)
  {
    TurnsUnfold(max, q, actions);
    assert Run(max, q, actions).1[0] == turn;
  }

  lemma ServedNext(max: nat, q: Queue, actions: seq<Action>, turn: Turn, bound: nat, later: nat)
    requires actions != [] && actions[0].Next? && Dispatch(q).1.Some? && bound + 1 <= later
    requires ServedWithin(Run(max, Apply(max, q, actions[0]).0, actions[1..]).1, turn, bound)
    ensures ServedWithin(Run(max, q, actions).1, turn, later)
  {
    TurnsUnfold(max, q, actions);
    ServedOneLater(Run(max, Apply(max, q, actions[0]).0, actions[1..]).1, turn, bound, Dispatch(q).1.value, later);
  }

  predicate ServedWithin(turns: seq<Turn>, turn: Turn, bound: nat) {
    exists j :: 0 <= j < |turns| && j < bound && turns[j] == turn
  }

  lemma ServedOneLater(turns: seq<Turn>, turn: Turn, bound: nat, first: Turn, later: nat)
    requires ServedWithin(turns, turn, bound) && bound + 1 <= later
    ensures ServedWithin([first] + turns, turn, later)
  {
    var j :| 0 <= j < |turns| && j < bound && turns[j] == turn;
    assert ([first] + turns)[j + 1] == turn;
  }

  // ----------------------------------------------------------------- fair turns --

  predicate Skips(turns: seq<Turn>, repo: string) {
    forall j :: 0 <= j < |turns| ==> turns[j].0 != repo
  }

  lemma SkipsRest(first: Turn, rest: seq<Turn>, repo: string)
    requires Skips([first] + rest, repo)
    ensures first.0 != repo && Skips(rest, repo)
  {
    assert ([first] + rest)[0] == first;
    forall j | 0 <= j < |rest| ensures rest[j].0 != repo { assert ([first] + rest)[j + 1] == rest[j]; }
  }

  /** The turns go to the first repositories of the rotation, in its order. */
  predicate Follows(turns: seq<Turn>, order: seq<string>) {
    |turns| <= |order| && forall j :: 0 <= j < |turns| ==> turns[j].0 == order[j]
  }

  lemma FollowsPrefix(turns: seq<Turn>, order: seq<string>, longer: seq<string>)
    requires Follows(turns, longer) && |turns| <= |order| && order <= longer
    ensures Follows(turns, order)
  {
  }

  lemma FollowsOneMore(first: Turn, rest: seq<Turn>, order: seq<string>)
    requires order != [] && first.0 == order[0] && Follows(rest, order[1..])
    ensures Follows([first] + rest, order)
  {
    forall j | 0 <= j < |[first] + rest| ensures ([first] + rest)[j].0 == order[j] {
      if j > 0 { assert rest[j - 1].0 == order[1..][j - 1]; }
    }
  }

  lemma DispatchRotates(max: nat, q: Queue)
    requires Valid(max, q) && q.order != []
    ensures q.order[1..] <= Dispatch(q).0.order && Dispatch(q).1.Some? && Dispatch(q).1.value.0 == q.order[0]
  {
    assert q.order[0] in q.lanes;
  }

  /** While a repository waits and gets no turn, turns go to those ahead of it in the
      rotation, in its order, once each. */
  lemma {:induction false} TurnsFollowTheRotation(max: nat, q: Queue, actions: seq<Action>, k: nat)
    requires Valid(max, q) && k < |q.order| && Skips(Run(max, q, actions).1, q.order[k])
    ensures |Run(max, q, actions).1| <= k && Follows(Run(max, q, actions).1, q.order)
    decreases |actions|
  {
    if actions != [] {
      var q' := Apply(max, q, actions[0]).0;
      var rest := Run(max, q', actions[1..]).1;
      StepKeepsValid(max, q, actions[0]);
      TurnsUnfold(max, q, actions);
      if actions[0].Enqueue? {
        assert q.order <= q'.order;
        TurnsFollowTheRotation(max, q', actions[1..], k);
        FollowsPrefix(rest, q.order, q'.order);
      } else {
        DispatchRotates(max, q);
        var first := Dispatch(q).1.value;
        SkipsRest(first, rest, q.order[k]);
        assert k > 0 && q'.order[k - 1] == q.order[1..][k - 1] == q.order[k];
        TurnsFollowTheRotation(max, q', actions[1..], k - 1);
        FollowsPrefix(rest, q.order[1..], q'.order);
        FollowsOneMore(first, rest, q.order);
      }
    }
  }

  /** No repository gets two turns while this one gets none, whatever happens. */
  ghost predicate NeverOvertaken(max: nat, q: Queue, repo: string) {
    forall actions :: Skips(Run(max, q, actions).1, repo) ==> DistinctTurns(Run(max, q, actions).1)
  }

  predicate DistinctTurns(turns: seq<Turn>) {
    forall i, j :: 0 <= i < j < |turns| ==> turns[i].0 != turns[j].0
  }

  /** Between two turns of a repository no other gets two, exactly if work of its own was
      left waiting by the first: a drained repository gives up its place. */
  lemma FairBetweenTurns(max: nat, q: Queue, repo: string)
    requires Valid(max, q) && max > 0
    ensures NeverOvertaken(max, q, repo) <==> Lane(q, repo) != []
  {
    if Lane(q, repo) != [] {
      var k :| 0 <= k < |q.order| && q.order[k] == repo;
      forall actions | Skips(Run(max, q, actions).1, repo) ensures DistinctTurns(Run(max, q, actions).1) {
        TurnsFollowTheRotation(max, q, actions, k);
      }
    } else {
      var actions := Overtake(max, q, repo);
    }
  }

  function Repeat(n: nat): seq<Action> {
    if n == 0 then [] else [Next] + Repeat(n - 1)
  }

  lemma {:induction false} RunAppend(max: nat, q: Queue, a: seq<Action>, b: seq<Action>)
    ensures Run(max, q, a + b) == (Run(max, Run(max, q, a).0, b).0, Run(max, q, a).1 + Run(max, Run(max, q, a).0, b).1)
    decreases |a|
  {
    if a == [] {
      assert a + b == b && [] + Run(max, q, b).1 == Run(max, q, b).1;
    } else {
      assert (a + b)[1..] == a[1..] + b && (a + b)[0] == a[0];
      var (q', turn) := Apply(max, q, a[0]);
      RunAppend(max, q', a[1..], b);
      var (q'', turns) := Run(max, q', a[1..]);
      assert turn + (turns + Run(max, q'', b).1) == (turn + turns) + Run(max, q'', b).1;
    }
  }

  lemma RunOfOne(max: nat, q: Queue, a: Action)
    ensures Run(max, q, [a]) == Apply(max, q, a)
  {
    assert [a][1..] == [];
    assert Apply(max, q, a).1 + [] == Apply(max, q, a).1;
  }

  lemma OneLess(max: nat, q: Queue, repo: string)
    requires Valid(max, q) && q.order != [] && Lane(q, repo) == []
    ensures var (q', turn) := Dispatch(q);
            q'.depth == q.depth - 1 && Lane(q', repo) == [] && turn.Some? && turn.value.0 != repo
  {
    assert q.order[0] in q.lanes;
  }

  lemma {:induction false} Drain(max: nat, q: Queue, repo: string)
    requires Valid(max, q) && Lane(q, repo) == []
    ensures var (q', turns) := Run(max, q, Repeat(q.depth));
            q'.lanes == map[] && q'.order == [] && q'.depth == 0 && Skips(turns, repo)
    decreases q.depth
  {
    if q.order == [] {
      assert q.depth == 0;
      assert forall r :: r in q.lanes <==> r in q.order;
    } else {
      OrderWithinWaiting(q.lanes, q.order);
      OneLess(max, q, repo);
      DispatchKeepsValid(max, q);
      Drain(max, Dispatch(q).0, repo);
      RepeatOnce(max, q);
      SkipsOneMore(Dispatch(q).1.value, Run(max, Dispatch(q).0, Repeat(q.depth - 1)).1, repo);
    }
  }

  lemma RepeatOnce(max: nat, q: Queue)
    requires q.depth > 0 && Dispatch(q).1.Some?
    ensures var (q', turn) := Dispatch(q);
            Run(max, q, Repeat(q.depth))
            == (Run(max, q', Repeat(q.depth - 1)).0, [turn.value] + Run(max, q', Repeat(q.depth - 1)).1)
  {
    assert Repeat(q.depth)[0] == Next && Repeat(q.depth)[1..] == Repeat(q.depth - 1);
  }

  lemma SkipsOneMore(first: Turn, rest: seq<Turn>, repo: string)
    requires first.0 != repo && Skips(rest, repo)
    ensures Skips([first] + rest, repo)
  {
  }

  /** Two turns for another repository while a drained one gets none. */
  lemma Overtake(max: nat, q: Queue, repo: string) returns (actions: seq<Action>)
    requires Valid(max, q) && max > 0 && Lane(q, repo) == []
    ensures Skips(Run(max, q, actions).1, repo) && !DistinctTurns(Run(max, q, actions).1)
  {
    Drain(max, q, repo);
    var drained := Run(max, q, Repeat(q.depth));
    var other := repo + "'";
    var once := [Enqueue(other, ""), Next];
    Alone(max, drained.0, other);
    Alone(max, Run(max, drained.0, once).0, other);
    RunAppend(max, drained.0, once, once);
    RunAppend(max, q, Repeat(q.depth), once + once);
    actions := Repeat(q.depth) + (once + once);
    assert Run(max, q, actions).1 == drained.1 + ([(other, "")] + [(other, "")]);
    assert |other| != |repo|;
    TwoTurns(drained.1, other, repo);
  }

  lemma TwoTurns(turns: seq<Turn>, other: string, repo: string)
    requires Skips(turns, repo) && other != repo
    ensures Skips(turns + ([(other, "")] + [(other, "")]), repo)
    ensures !DistinctTurns(turns + ([(other, "")] + [(other, "")]))
  {
    var all := turns + ([(other, "")] + [(other, "")]);
    assert all[|turns|].0 == all[|turns| + 1].0 == other;
  }

  lemma Alone(max: nat, q: Queue, other: string)
    requires max > 0 && q.lanes == map[] && q.order == [] && q.depth == 0
    ensures var (q', turns) := Run(max, q, [Enqueue(other, ""), Next]);
            q'.lanes == map[] && q'.order == [] && q'.depth == 0 && turns == [(other, "")]
  {
    var q1 := Admit(max, q, other, "");
    assert Lane(q, other) + [""] == [""];
    assert q1.lanes == map[other := [""]] && q1.order == [other];
    var q2 := Dispatch(q1).0;
    assert [Enqueue(other, ""), Next][1..] == [Next] && [Next][1..] == [];
    assert Run(max, q1, [Next]).1 == [(other, "")] + [];
    assert q2.order == [] + [];
  }

  /** A consumer is told to sleep exactly if nothing waits, with its flag down; the next run that
      is admitted raises the flag. */
  lemma SleepsOnlyWhenEmpty(max: nat, q: Queue, repo: string, id: string)
    requires Valid(max, q)
    ensures var (q', turn) := Dispatch(q);
            && (turn.None? <==> q.depth == 0)
            && (turn.None? ==> !q'.waiting && (max > 0 ==> Admit(max, q', repo, id).waiting))
            && (!q.waiting ==> turn.None?)
  {
    if q.order != [] {
      OrderWithinWaiting(q.lanes, q.order);
    }
  }

  // -------------------------------------------------------------- what is waiting --

  /** The ids waiting in the lanes of `order`, with their multiplicity. */
  function IdsIn(lanes: map<string, seq<string>>, order: seq<string>): multiset<string> {
    if order == [] then multiset{}
    else IdsIn(lanes, order[1..]) + if order[0] in lanes then multiset(lanes[order[0]]) else multiset{}
  }

  function Ids(q: Queue): multiset<string> {
    IdsIn(q.lanes, q.order)
  }

  lemma {:induction false} IdsAppend(lanes: map<string, seq<string>>, a: seq<string>, repo: string)
    ensures IdsIn(lanes, a + [repo]) == IdsIn(lanes, a) + if repo in lanes then multiset(lanes[repo]) else multiset{}
  {
    if a == [] {
      assert a + [repo] == [repo] && [repo][1..] == [];
    } else {
      IdsAppend(lanes, a[1..], repo);
      assert (a + [repo])[1..] == a[1..] + [repo];
    }
  }

  lemma {:induction false} IdsElsewhere(lanes: map<string, seq<string>>, lanes': map<string, seq<string>>,
                                        order: seq<string>)
    requires forall repo <- order ::
               (repo in lanes <==> repo in lanes') && (repo in lanes ==> lanes[repo] == lanes'[repo])
    ensures IdsIn(lanes, order) == IdsIn(lanes', order)
  {
    if order != [] {
      IdsElsewhere(lanes, lanes', order[1..]);
    }
  }

  lemma {:induction false} IdsUpdate(lanes: map<string, seq<string>>, order: seq<string>, repo: string, id: string)
    requires Distinct(order) && repo in order && repo in lanes
    ensures IdsIn(lanes[repo := lanes[repo] + [id]], order) == IdsIn(lanes, order) + multiset{id}
  {
    if order[0] == repo {
      IdsElsewhere(lanes, lanes[repo := lanes[repo] + [id]], order[1..]);
    } else {
      IdsUpdate(lanes, order[1..], repo, id);
    }
  }

  /** An admission adds its id to what is waiting. */
  lemma AdmitAddsId(max: nat, q: Queue, repo: string, id: string)
    requires Valid(max, q) && !Full(max, q)
    ensures Ids(Admit(max, q, repo, id)) == Ids(q) + multiset{id}
  {
    var q' := Admit(max, q, repo, id);
    if repo in q.lanes {
      IdsUpdate(q.lanes, q.order, repo, id);
    } else {
      IdsAppend(q'.lanes, q.order, repo);
      IdsElsewhere(q.lanes, q'.lanes, q.order);
      assert q'.lanes[repo] == [id];
    }
  }

  /** A dispatch removes the id it returns, and returns one if anything waits. */
  lemma DispatchRemovesId(max: nat, q: Queue)
    requires Valid(max, q)
    ensures var (q', turn) := Dispatch(q);
            if turn.None? then Ids(q) == multiset{} && Ids(q') == multiset{}
            else Ids(q) == Ids(q') + multiset{turn.value.1}
  {
    if q.order != [] {
      var repo := q.order[0];
      assert repo in q.lanes;
      var q' := Dispatch(q).0;
      var rest := q.lanes[repo][1..];
      assert q.lanes[repo] == [q.lanes[repo][0]] + rest;
      assert multiset(q.lanes[repo]) == multiset{q.lanes[repo][0]} + multiset(rest);
      IdsElsewhere(q.lanes, q'.lanes, q.order[1..]);
      if rest == [] {
        assert q.order[1..] + [] == q.order[1..];
      } else {
        IdsAppend(q'.lanes, q.order[1..], repo);
      }
    }
  }
}
