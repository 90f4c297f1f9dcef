/**
 How the state of a run changes: through all stages if nobody interferes, and never without cause.
 */
module EngineStates {
  import opened Engine
  import opened EngineResults
  import opened Options
  import Lanes

  // --------------------------------------------------------------- state changes --

  /** The states of a run in the order it passes them. */
  const ORDER: seq<RunState> :=
    [Queued, Preparing, ImageBuild, BaseRun, HeadRun, Probing, Adjudicating, Rendering, Done]

  /** A transition is allowed from a state that is not terminal, to a later one of the order or to
      failed or cancelled, and not otherwise. */
  lemma TransitionsExactly(current: RunState, target: RunState)
    ensures CanTransition(current, target)
       <==> && current != Done && current != Failed && current != Cancelled
            && (target == Failed || target == Cancelled
                || exists i, j :: 0 <= i < j < |ORDER| && ORDER[i] == current && ORDER[j] == target)
  {
    assert forall i :: 0 <= i < |ORDER| ==> Index(ORDER[i]) == i;
    if Index(current) >= 0 && Index(target) >= 0 {
      assert ORDER[Index(current)] == current && ORDER[Index(target)] == target;
    }
  }

  function StatesOf(max: nat, s: State, id: string, events: seq<(nat, Event)>): seq<RunState>
    decreases |events|
  {
    if events == [] then []
    else
      var t := Apply(max, s, events[0].0, events[0].1);
      (if id in t.rows then [t.rows[id].state] else []) + StatesOf(max, t, id, events[1..])
  }

  function Advances(id: string, now: nat, n: nat): seq<(nat, Event)> {
    if n == 0 then [] else [(now, Event.Advance(id))] + Advances(id, now, n - 1)
  }

  /** The stages of the pipeline that are left at `pc`. */
  const STAGES: seq<RunState> := [Preparing, BaseRun, HeadRun, Probing, Adjudicating, Rendering, Done]

  /** What a worker starts with, or has come to, and nobody has interfered. */
  ghost predicate Undisturbed(s: State, id: string, pc: nat) {
    && id in s.rows && id in s.tasks && pc <= 7
    && s.tasks[id].pc == pc && !s.tasks[id].cancelled
    && s.rows[id].state == (if pc == 0 then Queued else STAGES[pc - 1])
    && s.tasks[id].row.state == (if pc == 0 then Queued else if pc == 5 then Probing else STAGES[pc - 1])
  }

  lemma {:induction false} StagesLeft(max: nat, s: State, id: string, now: nat, pc: nat)
    requires Undisturbed(s, id, pc)
    ensures StatesOf(max, s, id, Advances(id, now, 7 - pc)) == STAGES[pc..]
    decreases 7 - pc
  {
    if pc < 7 {
      var t := Apply(max, s, now, Event.Advance(id));
      OneStage(max, s, id, now, pc);
      StagesLeft(max, t, id, now, pc + 1);
      StatesUnfold(max, s, id, (now, Event.Advance(id)), Advances(id, now, 6 - pc));
      assert Advances(id, now, 7 - pc) == [(now, Event.Advance(id))] + Advances(id, now, 6 - pc);
      FromStage(pc);
    }
  }

  lemma FromStage(pc: nat)
    requires pc < 7
    ensures STAGES[pc..] == [STAGES[pc]] + STAGES[pc + 1..]
  {
  }

  lemma StatesUnfold(max: nat, s: State, id: string, e: (nat, Event), rest: seq<(nat, Event)>)
    ensures var t := Apply(max, s, e.0, e.1);
            StatesOf(max, s, id, [e] + rest)
              == (if id in t.rows then [t.rows[id].state] else []) + StatesOf(max, t, id, rest)
  {
    assert ([e] + rest)[0] == e && ([e] + rest)[1..] == rest;
  }

  lemma OneStage(max: nat, s: State, id: string, now: nat, pc: nat)
    requires Undisturbed(s, id, pc) && pc < 7
    ensures var t := Apply(max, s, now, Event.Advance(id)); Undisturbed(t, id, pc + 1) && t.rows[id].state == STAGES[pc]
  {
    assert Target(pc) == STAGES[pc];
  }

  /** A queued run that a worker starts and nobody interferes with goes through all stages in order. */
  lemma UndisturbedRunCompletes(max: nat, s: State, id: string, now: nat)
    requires id in s.rows && s.rows[id].state == Queued
    ensures StatesOf(max, Start(s, id), id, Advances(id, now, 7))
         == [Preparing, BaseRun, HeadRun, Probing, Adjudicating, Rendering, Done]
  {
    StagesLeft(max, Start(s, id), id, now, 0);
    assert STAGES[0..] == STAGES;
  }

  // ---------------------------------------------------------------------- causes --

  /** A row written at this time: the first time it leaves the queue is kept, and the time of its end. */
  predicate WrittenAt(before: Row, after: Row, now: nat) {
    && after == before.(state := after.state, started := after.started, finished := after.finished)
    && after.started == (if before.started.Some? || after.state == Queued then before.started else Some(now))
    && after.finished == if after.state == Done || after.state == Failed || after.state == Cancelled then Some(now)
                         else before.finished
  }

  /** A crash of its worker fails a run. */
  lemma CrashFails(max: nat, s: State, now: nat, id: string)
    requires Working(s, id)
    ensures var t := Apply(max, s, now, Crash(id)); t.rows[id].state == Failed && WrittenAt(s.rows[id], t.rows[id], now)
  {
  }

  /** A cancellation is on record at once, whatever the run has come to, and its worker is told. */
  lemma CancelIsRecorded(max: nat, s: State, now: nat, id: string)
    requires id in s.rows
    ensures var t := Apply(max, s, now, Cancel(id));
            && t.rows[id].state == Cancelled && WrittenAt(s.rows[id], t.rows[id], now)
            && (Working(s, id) ==> id in t.tasks && t.tasks[id].cancelled)
  {
  }

  /** A cancelled task ends with its run cancelled. */
  lemma CancelledTaskEnds(max: nat, s: State, now: nat, id: string)
    requires id in s.rows && id in s.tasks && s.tasks[id].cancelled
    ensures var t := Apply(max, s, now, Reap(id));
            t.rows[id].state == Cancelled && WrittenAt(s.rows[id], t.rows[id], now) && id !in t.tasks
  {
  }

  /** A task at its end is gone, and its run is left as it is. */
  lemma FinishedTaskEnds(max: nat, s: State, now: nat, id: string)
    requires id in s.tasks && s.tasks[id].pc >= 7 && !s.tasks[id].cancelled
    ensures Apply(max, s, now, Reap(id)) == s.(tasks := s.tasks - {id})
  {
  }

  /** The fork point that a worker finds becomes the base of its run, on record and in its copy. */
  lemma ForkPointIsRecorded(max: nat, s: State, now: nat, id: string, base: string)
    requires Working(s, id) && s.tasks[id].pc == 1
    ensures var t := Apply(max, s, now, ForkPoint(id, base));
            && t.rows[id] == s.rows[id].(base := base) && t.tasks[id].row == s.tasks[id].row.(base := base)
            && t.tasks[id].pc == 1 && !t.tasks[id].cancelled
  {
  }

  /** What a restart leaves: every unfinished run is queued on record, the others are as they were, and
      nothing is pending, asleep or at work. */
  lemma RestartStartsOver(max: nat, s: State, now: nat)
    requires RowsOk(s)
    ensures var t := Apply(max, s, now, Restart);
            && t.pending == map[] && t.settling == {} && t.tasks == map[] && t.created == s.created
            && forall id <- s.rows :: id in t.rows && t.rows[id] == AfterRestart(s.rows[id])
  {
    RequeueClears(max, Rebooted(s), now, s.created);
    forall id <- s.rows ensures id in Requeue(max, Rebooted(s), now, s.created).rows
      && Requeue(max, Rebooted(s), now, s.created).rows[id] == AfterRestart(s.rows[id]) {
      RequeueOnRecord(max, Rebooted(s), now, s.created, id);
    }
  }

  function AfterRestart(row: Row): Row {
    if row.state == Done || row.state == Failed || row.state == Cancelled then row else row.(state := Queued)
  }

  lemma {:induction false} RequeueClears(max: nat, s: State, now: nat, ids: seq<string>)
    ensures var t := Requeue(max, s, now, ids);
            t.pending == s.pending && t.settling == s.settling && t.tasks == s.tasks && t.created == s.created
    decreases |ids|
  {
    if ids != [] {
      if ids[0] in s.rows && !Terminal(s.rows[ids[0]].state) {
        RequeueClears(max, RequeueOne(max, s, now, ids[0]), now, ids[1..]);
      } else {
        RequeueClears(max, s, now, ids[1..]);
      }
    }
  }

  lemma RequeueOneOnRecord(max: nat, s: State, now: nat, first: string, id: string)
    requires first in s.rows && id in s.rows && !Terminal(s.rows[first].state)
             && (s.rows[first].finished.Some? <==> Terminal(s.rows[first].state))
    ensures var t := RequeueOne(max, s, now, first);
            && id in t.rows && t.rows[id] == if id == first then AfterRestart(s.rows[id]) else s.rows[id]
  {
  }

  lemma {:induction false} RequeueOnRecord(max: nat, s: State, now: nat, ids: seq<string>, id: string)
    requires id in s.rows && forall other <- s.rows :: s.rows[other].finished.Some? <==> Terminal(s.rows[other].state)
    ensures var t := Requeue(max, s, now, ids);
            id in t.rows && t.rows[id] == if id in ids then AfterRestart(s.rows[id]) else s.rows[id]
    decreases |ids|
  {
    if ids != [] {
      if ids[0] in s.rows && !Terminal(s.rows[ids[0]].state) {
        var t := RequeueOne(max, s, now, ids[0]);
        RequeueOneOnRecord(max, s, now, ids[0], id);
        RequeueOnRecord(max, t, now, ids[1..], id);
      } else {
        RequeueOnRecord(max, s, now, ids[1..], id);
      }
    }
  }

  /** Every worker verifies against the base that is on record for its run. */
  ghost predicate BasesAgree(s: State) {
    forall id :: BaseAgrees(s, id)
  }

  predicate BaseAgrees(s: State, id: string) {
    id in s.tasks ==> id in s.rows && s.tasks[id].row.base == s.rows[id].base
  }

  lemma StepKeepsBases(max: nat, s: State, now: nat, e: Event)
    requires Inv(max, s) && BasesAgree(s)
    ensures BasesAgree(Apply(max, s, now, e))
  {
    match e {
      case Submit(_, _, _, _, _) => SubmitKeepsBases(max, s, now, e);
      case TakeNext => TakenKeepsBases(s, Lanes.Dispatch(s.queue).0, Lanes.Dispatch(s.queue).1);
      case Restart => RequeueClears(max, Rebooted(s), now, s.created);
      case _ => WorkKeepsBases(max, s, now, e);
    }
  }

  lemma SubmitKeepsBases(max: nat, s: State, now: nat, e: Event)
    requires Inv(max, s) && BasesAgree(s) && e.Submit?
    ensures BasesAgree(Apply(max, s, now, e))
  {
    var t := Apply(max, s, now, e);
    forall id ensures BaseAgrees(t, id) {
      assert BaseAgrees(s, id);
      if id in s.tasks { SubmitKeepsTheBase(max, s, now, e, id); }
    }
  }

  lemma SubmitKeepsTheBase(max: nat, s: State, now: nat, e: Event, id: string)
    requires PendingOk(s) && e.Submit? && id in s.tasks && id in s.rows
    ensures var t := Apply(max, s, now, e); t.tasks == s.tasks && id in t.rows && t.rows[id].base == s.rows[id].base
  {
  }

  lemma TakenKeepsBases(s: State, queue: Lanes.Queue, turn: Option<Lanes.Turn>)
    requires BasesAgree(s)
    ensures BasesAgree(Taken(s, queue, turn))
  {
    forall id ensures BaseAgrees(Taken(s, queue, turn), id) {
      assert BaseAgrees(s, id);
    }
  }

  lemma WorkKeepsBases(max: nat, s: State, now: nat, e: Event)
    requires BasesAgree(s) && !e.Submit? && !e.TakeNext? && !e.Restart?
    ensures BasesAgree(Apply(max, s, now, e))
  {
    forall id ensures BaseAgrees(Apply(max, s, now, e), id) {
      assert BaseAgrees(s, id);
      if e.id == id { WorkKeepsItsBase(max, s, now, e); } else { WorkKeepsOtherBases(max, s, now, e, id); }
    }
  }

  lemma WorkKeepsItsBase(max: nat, s: State, now: nat, e: Event)
    requires !e.Submit? && !e.TakeNext? && !e.Restart? && BaseAgrees(s, e.id)
    ensures BaseAgrees(Apply(max, s, now, e), e.id)
  {
  }

  lemma WorkKeepsOtherBases(max: nat, s: State, now: nat, e: Event, id: string)
    requires !e.Submit? && !e.TakeNext? && !e.Restart? && e.id != id && BaseAgrees(s, id)
    ensures BaseAgrees(Apply(max, s, now, e), id)
  {
  }

  /** Over every interleaving, whatever is submitted for its pull request meanwhile. */
  lemma {:induction false} ExecutedBaseIsRecorded(max: nat, s: State, events: seq<(nat, Event)>)
    requires Inv(max, s) && BasesAgree(s)
    ensures BasesAgree(Run(max, s, events))
    decreases |events|
  {
    if events != [] {
      StepKeepsInv(max, s, events[0].0, events[0].1);
      StepKeepsBases(max, s, events[0].0, events[0].1);
      ExecutedBaseIsRecorded(max, Apply(max, s, events[0].0, events[0].1), events[1..]);
    }
  }

  /** A run changes its state for one of five reasons: its worker advances it to the next stage,
      it crashes, it is cancelled, its cancelled task ends, or a restart puts it back. */
  predicate Caused(s: State, e: Event, id: string, after: RunState) {
    || (e == Event.Advance(id) && Working(s, id) && after == STAGES[s.tasks[id].pc])
    || (e == Crash(id) && after == Failed)
    || ((e == Cancel(id) || e == Reap(id)) && after == Cancelled)
    || (e == Restart && after == Queued)
  }

  lemma StateChangesAreCaused(max: nat, s: State, now: nat, e: Event, id: string)
    requires Inv(max, s) && id in s.rows
    ensures var t := Apply(max, s, now, e);
            && id in t.rows
            && (t.rows[id].state != s.rows[id].state ==>
                  Caused(s, e, id, t.rows[id].state) && WrittenAt(s.rows[id], t.rows[id], now))
  {
    if e.Submit? {
      SubmitKeepsStates(max, s, now, e, id);
    } else if e.TakeNext? {
      TakeEffect(s);
    } else if e.Restart? {
      RequeueWrites(max, Rebooted(s), now, s.created, id);
    } else {
      WorkIsCaused(max, s, now, e, id);
    }
  }

  lemma SubmitKeepsStates(max: nat, s: State, now: nat, e: Event, id: string)
    requires e.Submit? && id in s.rows
    ensures id in Apply(max, s, now, e).rows && Apply(max, s, now, e).rows[id].state == s.rows[id].state
  {
  }

  lemma {:induction false} RequeueWrites(max: nat, s: State, now: nat, ids: seq<string>, id: string)
    requires id in s.rows
    ensures var t := Requeue(max, s, now, ids);
            id in t.rows && (t.rows[id] == s.rows[id] || t.rows[id] == s.rows[id].(state := Queued))
    decreases |ids|
  {
    if ids != [] {
      if ids[0] in s.rows && !Terminal(s.rows[ids[0]].state) {
        RequeueWrites(max, RequeueOne(max, s, now, ids[0]), now, ids[1..], id);
      } else {
        RequeueWrites(max, s, now, ids[1..], id);
      }
    }
  }

  /** What a step does to a row: nothing, another base, or a state for which there is a cause. */
  lemma WorkWrites(max: nat, s: State, now: nat, e: Event, id: string) returns (state: RunState)
    requires id in s.rows && !e.Submit? && !e.TakeNext? && !e.Restart?
    ensures var t := Apply(max, s, now, e);
            && id in t.rows
            && (t.rows[id] == s.rows[id].(base := t.rows[id].base)
                || (t.rows[id] == Written(s.rows[id], state, now) && Caused(s, e, id, state)))
  {
    match e {
      case Advance(x) => state := if Working(s, x) then Target(s.tasks[x].pc) else Queued;
      case Crash(_) => state := Failed;
      case _ => state := Cancelled;
    }
  }

  lemma WorkIsCaused(max: nat, s: State, now: nat, e: Event, id: string)
    requires id in s.rows && !e.Submit? && !e.TakeNext? && !e.Restart?
    ensures var t := Apply(max, s, now, e);
            && id in t.rows
            && (t.rows[id].state != s.rows[id].state ==>
                  Caused(s, e, id, t.rows[id].state) && WrittenAt(s.rows[id], t.rows[id], now))
  {
    var state := WorkWrites(max, s, now, e, id);
  }

  // --------------------------------------------------------------------- taking --

  /** A run that is taken and not cancelled goes on: it sleeps if its pull request is pending, and
      gets a worker with its row as it is then otherwise; after the sleep it gets one in any case. */
  lemma TakenRunGoesOn(max: nat, s: State, now: nat, repo: string, id: string)
    requires Lanes.Dispatch(s.queue).1 == Some((repo, id)) && id in s.rows && s.rows[id].state != Cancelled
    ensures var t := Apply(max, s, now, TakeNext);
            if s.rows[id].key in s.pending then id in t.settling && t.tasks == s.tasks
            else id in t.tasks && t.tasks[id] == Task(s.rows[id], 0, false) && t.settling == s.settling
  {
  }

  lemma SleeperWakes(max: nat, s: State, now: nat, id: string)
    requires id in s.settling && id in s.rows
    ensures var t := Apply(max, s, now, Wake(id));
            id in t.tasks && t.tasks[id] == Task(s.rows[id], 0, false) && id !in t.settling
              && s.rows[id].key !in t.pending
  {
  }

  /** A run that was cancelled while it waited never gets a worker. */
  ghost predicate Shelved(s: State, id: string) {
    id in s.rows && s.rows[id].state == Cancelled && id !in s.tasks && id !in s.settling
  }

  lemma StepKeepsShelved(max: nat, s: State, now: nat, e: Event, id: string)
    requires Shelved(s, id)
    ensures Shelved(Apply(max, s, now, e), id)
  {
    if e.TakeNext? {
      TakeKeepsShelved(s, id);
    } else if e.Restart? {
      RequeueKeepsHeads(max, Rebooted(s), now, s.created);
      RequeueKeepsTerminal(max, Rebooted(s), now, s.created, id);
    } else if e.Submit? {
      SubmitKeepsShelved(max, s, now, e, id);
    } else {
      WorkKeepsShelved(max, s, now, e, id);
    }
  }

  lemma SubmitKeepsShelved(max: nat, s: State, now: nat, e: Event, id: string)
    requires e.Submit? && Shelved(s, id)
    ensures Shelved(Apply(max, s, now, e), id)
  {
  }

  lemma WorkKeepsShelved(max: nat, s: State, now: nat, e: Event, id: string)
    requires Shelved(s, id) && !e.Submit? && !e.TakeNext? && !e.Restart?
    ensures Shelved(Apply(max, s, now, e), id)
  {
    var state := WorkWrites(max, s, now, e, id);
  }

  lemma TakeKeepsShelved(s: State, id: string)
    requires Shelved(s, id)
    ensures Shelved(Take(s), id)
  {
    var (queue, turn) := Lanes.Dispatch(s.queue);
    TakenKeepsShelved(s, queue, turn, id);
  }

  lemma TakenKeepsShelved(s: State, queue: Lanes.Queue, turn: Option<Lanes.Turn>, id: string)
    requires Shelved(s, id)
    ensures Shelved(Taken(s, queue, turn), id)
  {
  }

  lemma {:induction false} RequeueKeepsTerminal(max: nat, s: State, now: nat, ids: seq<string>, id: string)
    requires id in s.rows && Terminal(s.rows[id].state)
    ensures id in Requeue(max, s, now, ids).rows && Requeue(max, s, now, ids).rows[id] == s.rows[id]
    decreases |ids|
  {
    if ids != [] {
      if ids[0] in s.rows && !Terminal(s.rows[ids[0]].state) {
        RequeueKeepsTerminal(max, RequeueOne(max, s, now, ids[0]), now, ids[1..], id);
      } else {
        RequeueKeepsTerminal(max, s, now, ids[1..], id);
      }
    }
  }

  lemma {:induction false} CancelledRunsAreNotStarted(max: nat, s: State, events: seq<(nat, Event)>, id: string)
    requires Shelved(s, id)
    ensures Shelved(Run(max, s, events), id)
    decreases |events|
  {
    if events != [] {
      StepKeepsShelved(max, s, events[0].0, events[0].1, id);
      CancelledRunsAreNotStarted(max, Apply(max, s, events[0].0, events[0].1), events[1..], id);
    }
  }

  // ----------------------------------------------------------------------- times --

  /** A run that has left the queue has a start time, and times are in order. */
  predicate Timed(row: Row, now: nat) {
    && (row.state != Queued ==> row.started.Some?)
    && (row.started.Some? ==> row.started.value <= now)
    && (row.finished.Some? ==> row.started.Some? && row.started.value <= row.finished.value <= now)
  }

  ghost predicate AllTimed(s: State, now: nat) {
    forall id <- s.rows :: Timed(s.rows[id], now)
  }

  lemma StepKeepsTimed(max: nat, s: State, before: nat, now: nat, e: Event)
    requires Inv(max, s) && AllTimed(s, before) && before <= now
    ensures AllTimed(Apply(max, s, now, e), now)
  {
    var t := Apply(max, s, now, e);
    forall id <- t.rows ensures Timed(t.rows[id], now) {
      if id in s.rows {
        OldRowKeepsTimed(max, s, before, now, e, id);
      } else {
        NewRowIsTimed(max, s, now, e, id);
      }
    }
  }

  lemma NewRowIsTimed(max: nat, s: State, now: nat, e: Event, id: string)
    requires id !in s.rows && id in Apply(max, s, now, e).rows
    ensures Timed(Apply(max, s, now, e).rows[id], now)
  {
    if e.Submit? {
    } else if e.TakeNext? {
      TakeEffect(s);
    } else if e.Restart? {
      RequeueKeepsHeads(max, Rebooted(s), now, s.created);
    }
  }

  lemma OldRowKeepsTimed(max: nat, s: State, before: nat, now: nat, e: Event, id: string)
    requires Inv(max, s) && id in s.rows && Timed(s.rows[id], before) && before <= now
    ensures id in Apply(max, s, now, e).rows && Timed(Apply(max, s, now, e).rows[id], now)
  {
    StateChangesAreCaused(max, s, now, e, id);
    if Apply(max, s, now, e).rows[id].state == s.rows[id].state {
      SameStateTimed(max, s, before, now, e, id);
    }
  }

  lemma SameStateTimed(max: nat, s: State, before: nat, now: nat, e: Event, id: string)
    requires id in s.rows && Timed(s.rows[id], before) && before <= now
    requires id in Apply(max, s, now, e).rows && Apply(max, s, now, e).rows[id].state == s.rows[id].state
    ensures Timed(Apply(max, s, now, e).rows[id], now)
  {
    if e.TakeNext? {
      TakeEffect(s);
    } else if e.Restart? {
      RequeueTimed(max, Rebooted(s), now, s.created, id);
    } else if e.Submit? {
      SubmitKeepsTimes(max, s, now, e, id);
    } else {
      WorkKeepsTimed(max, s, before, now, e, id);
    }
  }

  lemma SubmitKeepsTimes(max: nat, s: State, now: nat, e: Event, id: string)
    requires e.Submit? && id in s.rows
    ensures id in Apply(max, s, now, e).rows
    ensures Apply(max, s, now, e).rows[id]
         == s.rows[id].(base := Apply(max, s, now, e).rows[id].base, head := Apply(max, s, now, e).rows[id].head)
  {
  }

  lemma WorkKeepsTimed(max: nat, s: State, before: nat, now: nat, e: Event, id: string)
    requires id in s.rows && Timed(s.rows[id], before) && before <= now
    requires !e.Submit? && !e.TakeNext? && !e.Restart?
    ensures id in Apply(max, s, now, e).rows && Timed(Apply(max, s, now, e).rows[id], now)
  {
    var state := WorkWrites(max, s, now, e, id);
  }

  lemma {:induction false} RequeueTimed(max: nat, s: State, now: nat, ids: seq<string>, id: string)
    requires id in s.rows && Timed(s.rows[id], now)
    ensures id in Requeue(max, s, now, ids).rows && Timed(Requeue(max, s, now, ids).rows[id], now)
    decreases |ids|
  {
    if ids != [] {
      if ids[0] in s.rows && !Terminal(s.rows[ids[0]].state) {
        RequeueTimed(max, RequeueOne(max, s, now, ids[0]), now, ids[1..], id);
      } else {
        RequeueTimed(max, s, now, ids[1..], id);
      }
    }
  }

  predicate ClockRuns(before: nat, events: seq<(nat, Event)>)
    decreases |events|
  {
    events == [] || (before <= events[0].0 && ClockRuns(events[0].0, events[1..]))
  }

  function LastTime(before: nat, events: seq<(nat, Event)>): nat
    decreases |events|
  {
    if events == [] then before else LastTime(events[0].0, events[1..])
  }

  /** While the clock does not go back: every run that has left the queue has a start time, and no
      run ends before it starts. */
  lemma {:induction false} TimesAreInOrder(max: nat, s: State, before: nat, events: seq<(nat, Event)>)
    requires Inv(max, s) && AllTimed(s, before) && ClockRuns(before, events)
    ensures AllTimed(Run(max, s, events), LastTime(before, events))
    decreases |events|
  {
    if events != [] {
      StepKeepsInv(max, s, events[0].0, events[0].1);
      StepKeepsTimed(max, s, before, events[0].0, events[0].1);
      TimesAreInOrder(max, Apply(max, s, events[0].0, events[0].1), events[0].0, events[1..]);
    }
  }
}
