/**
 How long a queued run waits while everything else goes on.
 */
module EngineWaiting {
  import opened Engine
  import opened Options
  import Lanes

  /** What an event does to the queue. */
  function QueueActions(max: nat, s: State, e: Event): seq<Lanes.Action> {
    match e
    case TakeNext => [Lanes.Next]
    case Submit(id, key, base, head, force) =>
      if base == "" || head == "" || id in s.rows
         || (!force && (SameCode(s, key, head) || key in s.pending))
      then [] else [Lanes.Enqueue(key.0, id)]
    case _ => []
  }

  function AllQueueActions(max: nat, s: State, events: seq<(nat, Event)>): seq<Lanes.Action>
    decreases |events|
  {
    if events == [] then []
    else QueueActions(max, s, events[0].1)
         + AllQueueActions(max, Apply(max, s, events[0].0, events[0].1), events[1..])
  }

  /** The turns that consumers are given, in order. */
  function TurnsTaken(max: nat, s: State, events: seq<(nat, Event)>): seq<Lanes.Turn>
    decreases |events|
  {
    if events == [] then []
    else
      var turn := if events[0].1.TakeNext? then Lanes.Dispatch(s.queue).1 else None;
      (if turn.Some? then [turn.value] else [])
      + TurnsTaken(max, Apply(max, s, events[0].0, events[0].1), events[1..])
  }

  function Takes(events: seq<(nat, Event)>): nat {
    if events == [] then 0 else (if events[0].1.TakeNext? then 1 else 0) + Takes(events[1..])
  }

  /** One event is what its action does to the lanes. */
  lemma StepOfLanes(max: nat, s: State, now: nat, e: Event)
    requires !e.Restart?
    ensures var (q, turns) := Lanes.Run(max, s.queue, QueueActions(max, s, e));
            && Apply(max, s, now, e).queue == q
            && turns == if e.TakeNext? && Lanes.Dispatch(s.queue).1.Some? then [Lanes.Dispatch(s.queue).1.value] else []
  {
    if e.TakeNext? {
      Lanes.RunOfOne(max, s.queue, Lanes.Next);
    } else if e.Submit? && QueueActions(max, s, e) != [] {
      Lanes.RunOfOne(max, s.queue, Lanes.Enqueue(e.key.0, e.id));
    }
  }

  /** Between two restarts, the queue and the turns are those of the lanes alone. */
  lemma {:induction false} RunOfLanes(max: nat, s: State, events: seq<(nat, Event)>)
    requires forall e <- events :: !e.1.Restart?
    ensures Lanes.Run(max, s.queue, AllQueueActions(max, s, events))
         == (Run(max, s, events).queue, TurnsTaken(max, s, events))
    ensures Lanes.Nexts(AllQueueActions(max, s, events)) == Takes(events)
    decreases |events|
  {
    if events != [] {
      var t := Apply(max, s, events[0].0, events[0].1);
      StepOfLanes(max, s, events[0].0, events[0].1);
      RunOfLanes(max, t, events[1..]);
      Lanes.RunAppend(max, s.queue, QueueActions(max, s, events[0].1), AllQueueActions(max, t, events[1..]));
      NextsAppend(QueueActions(max, s, events[0].1), AllQueueActions(max, t, events[1..]));
    }
  }

  lemma NextsAppend(a: seq<Lanes.Action>, b: seq<Lanes.Action>)
    requires |a| <= 1
    ensures Lanes.Nexts(a + b) == (if a != [] && a[0].Next? then 1 else 0) + Lanes.Nexts(b)
  {
    if a == [] {
      assert a + b == b;
    } else {
      assert (a + b)[1..] == b;
    }
  }

  /** Whatever is submitted, executed, cancelled or crashes meanwhile: a queued run with `p` runs
      ahead of it in its lane, and its repository at place `k` of the rotation, is taken within
      k + 1 + p * max further takes, unless the service is restarted before. */
  lemma QueuedRunIsTaken(max: nat, s: State, events: seq<(nat, Event)>, turn: Lanes.Turn, k: nat, p: nat)
    requires Inv(max, s) && Lanes.Ahead(s.queue, turn, k, p) && (forall e <- events :: !e.1.Restart?)
    requires Takes(events) >= Lanes.Bound(max, k, p)
    ensures Lanes.ServedWithin(TurnsTaken(max, s, events), turn, Lanes.Bound(max, k, p))
  {
    RunOfLanes(max, s, events);
    Lanes.BoundedWaiting(max, s.queue, AllQueueActions(max, s, events), turn, k, p);
  }
}
