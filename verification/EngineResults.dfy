/**
 What every run of the engine keeps: terminal states, climbing advances, the newest
 head of every pull request, and that no unfinished run is forgotten.
 */
module EngineResults {
  import opened Options
  import opened Engine
  import Lanes

  lemma {:induction false} RunKeepsInv(max: nat, s: State, events: seq<(nat, Event)>)
    requires Inv(max, s)
    ensures Inv(max, Run(max, s, events))
    decreases |events|
  {
    if events != [] {
      StepKeepsInv(max, s, events[0].0, events[0].1);
      RunKeepsInv(max, Apply(max, s, events[0].0, events[0].1), events[1..]);
    }
  }

  // ----------------------------------------------------------- terminal states --

  /** The row is kept, with its pull request; a terminal state stays terminal, and a start
      time once set does not change. */
  predicate Absorbed(before: Row, after: Row) {
    && after.key == before.key
    && (Terminal(before.state) ==> Terminal(after.state))
    && (before.started.Some? ==> after.started == before.started)
  }

  lemma {:induction false} RequeueAbsorbs(max: nat, s: State, now: nat, ids: seq<string>, id: string)
    requires id in s.rows
    ensures id in Requeue(max, s, now, ids).rows && Absorbed(s.rows[id], Requeue(max, s, now, ids).rows[id])
    decreases |ids|
  {
    if ids != [] {
      if ids[0] in s.rows && !Terminal(s.rows[ids[0]].state) {
        RequeueAbsorbs(max, RequeueOne(max, s, now, ids[0]), now, ids[1..], id);
      } else {
        RequeueAbsorbs(max, s, now, ids[1..], id);
      }
    }
  }

  /** The worker never advances a terminal row: its copy is terminal as well. */
  lemma AdvanceAbsorbs(max: nat, s: State, now: nat, id: string)
    requires Inv(max, s) && Working(s, id)
    ensures Absorbed(s.rows[id], AdvanceTask(s, now, id).rows[id])
  {
    assert InStep(s.rows[id], s.tasks[id]);
  }

  /** At most the row of `id` is written, its task or none having written it. */
  predicate Local(s: State, t: State, id: string, cancelling: bool) {
    && t.created == s.created && t.newest == s.newest && t.rows.Keys == s.rows.Keys
    && (forall other <- s.rows :: other != id ==> t.rows[other] == s.rows[other])
    && (id in s.rows ==> t.rows[id].head == s.rows[id].head && Absorbed(s.rows[id], t.rows[id]))
    && (id in s.rows && !cancelling && id !in s.tasks ==> t.rows[id] == s.rows[id])
    && (forall key <- t.pending :: key in s.pending && t.pending[key] == s.pending[key])
  }

  lemma SetStateIsLocal(s: State, id: string, state: RunState, now: nat, cancelling: bool)
    requires id in s.rows ==> Absorbed(s.rows[id], Written(s.rows[id], state, now))
    requires cancelling || id in s.tasks
    ensures Local(s, SetState(s, id, state, now), id, cancelling)
  {
  }

  lemma AdvanceIsLocal(max: nat, s: State, now: nat, id: string)
    requires Working(s, id) ==> Absorbed(s.rows[id], AdvanceTask(s, now, id).rows[id])
    ensures Local(s, Apply(max, s, now, Advance(id)), id, false)
  {
    if Working(s, id) && CanTransition(s.tasks[id].row.state, Target(s.tasks[id].pc)) {
      SetStateIsLocal(s, id, Target(s.tasks[id].pc), now, false);
    }
  }

  lemma ForkPointIsLocal(max: nat, s: State, now: nat, id: string, base: string)
    ensures Local(s, Apply(max, s, now, ForkPoint(id, base)), id, false)
  {
  }

  lemma CrashIsLocal(max: nat, s: State, now: nat, id: string)
    ensures Local(s, Apply(max, s, now, Crash(id)), id, false)
  {
    if Working(s, id) { SetStateIsLocal(s, id, Failed, now, false); }
  }

  lemma ReapIsLocal(max: nat, s: State, now: nat, id: string)
    ensures Local(s, Apply(max, s, now, Reap(id)), id, false)
  {
    if id in s.tasks { SetStateIsLocal(s, id, Cancelled, now, false); }
  }

  lemma CancelIsLocal(max: nat, s: State, now: nat, id: string)
    ensures Local(s, Apply(max, s, now, Cancel(id)), id, true)
  {
    SetStateIsLocal(s, id, Cancelled, now, true);
  }

  lemma SleepIsLocal(max: nat, s: State, now: nat, e: Event)
    requires e.Wake? || e.SkipAdjudication?
    ensures Local(s, Apply(max, s, now, e), e.id, false)
  {
  }

  /** What a worker's, a consumer's or a canceller's step does: at most the row it is about
      is written, and only a cancellation writes a row that no worker has. */
  lemma WorkEffect(max: nat, s: State, now: nat, e: Event)
    requires !e.Submit? && !e.TakeNext? && !e.Restart?
    requires e.Advance? && Working(s, e.id) ==> Absorbed(s.rows[e.id], AdvanceTask(s, now, e.id).rows[e.id])
    ensures Local(s, Apply(max, s, now, e), e.id, e.Cancel?)
  {
    match e {
      case Advance(id) => AdvanceIsLocal(max, s, now, id);
      case ForkPoint(id, base) => ForkPointIsLocal(max, s, now, id, base);
      case Crash(id) => CrashIsLocal(max, s, now, id);
      case Reap(id) => ReapIsLocal(max, s, now, id);
      case Cancel(id) => CancelIsLocal(max, s, now, id);
      case _ => SleepIsLocal(max, s, now, e);
    }
  }

  lemma TakenEffect(s: State, queue: Lanes.Queue, turn: Option<Lanes.Turn>)
    ensures var t := Taken(s, queue, turn);
            t.rows == s.rows && t.created == s.created && t.newest == s.newest && t.pending == s.pending
  {
  }

  lemma TakeEffect(s: State)
    ensures var t := Take(s);
            t.rows == s.rows && t.created == s.created && t.newest == s.newest && t.pending == s.pending
  {
    TakenEffect(s, Lanes.Dispatch(s.queue).0, Lanes.Dispatch(s.queue).1);
  }

  /** A submission adds a row, or points a queued run that no worker has elsewhere. */
  lemma SubmitEffect(max: nat, s: State, now: nat, e: Event)
    requires PendingOk(s) && e.Submit?
    ensures var t := Apply(max, s, now, e);
            forall id <- s.rows :: id in t.rows && Absorbed(s.rows[id], t.rows[id])
              && (id in s.tasks ==> t.rows[id] == s.rows[id])
  {
  }

  lemma StepAbsorbs(max: nat, s: State, now: nat, e: Event, id: string)
    requires Inv(max, s) && id in s.rows
    ensures id in Apply(max, s, now, e).rows && Absorbed(s.rows[id], Apply(max, s, now, e).rows[id])
  {
    if e.Submit? {
      SubmitEffect(max, s, now, e);
    } else if e.TakeNext? {
      TakeEffect(s);
    } else if e.Restart? {
      RequeueAbsorbs(max, Rebooted(s), now, s.created, id);
    } else {
      if e.Advance? && Working(s, e.id) { AdvanceAbsorbs(max, s, now, e.id); }
      WorkEffect(max, s, now, e);
    }
  }

  /** Over every interleaving, a run once done, failed or cancelled never leaves the terminal
      states, its start time never changes once set, and its finish time is set exactly
      while it is terminal. */
  lemma {:induction false} TerminalStatesAbsorb(max: nat, s: State, events: seq<(nat, Event)>, id: string)
    requires Inv(max, s) && id in s.rows
    ensures var t := Run(max, s, events);
            id in t.rows && Absorbed(s.rows[id], t.rows[id])
              && (t.rows[id].finished.Some? <==> Terminal(t.rows[id].state))
    decreases |events|
  {
    if events != [] {
      StepKeepsInv(max, s, events[0].0, events[0].1);
      StepAbsorbs(max, s, events[0].0, events[0].1, id);
      TerminalStatesAbsorb(max, Apply(max, s, events[0].0, events[0].1), events[1..], id);
    }
  }

  lemma CopyDecidesLikeRow(row: Row, task: Task)
    requires InStep(row, task) && !task.cancelled && task.pc < FINISHED
    ensures if CanTransition(task.row.state, Target(task.pc))
            then !Terminal(row.state) && Index(row.state) < Index(Target(task.pc))
            else Terminal(row.state)
  {
  }

  /** An accepted advance climbs ORDER from the stored row, although only the worker's copy
      is checked; a refused one leaves a terminal row alone. */
  lemma AcceptedAdvancesClimb(max: nat, s: State, now: nat, id: string)
    requires Inv(max, s) && Working(s, id)
    ensures var before, after := s.rows[id], AdvanceTask(s, now, id).rows[id];
            if CanTransition(s.tasks[id].row.state, Target(s.tasks[id].pc))
            then !Terminal(before.state) && Index(before.state) < Index(after.state)
              && after.state == Target(s.tasks[id].pc)
            else Terminal(before.state) && after == before
  {
    CopyDecidesLikeRow(s.rows[id], s.tasks[id]);
  }

  /** The commit a worker verifies is the one its row names, for as long as it works. */
  lemma ExecutedHeadIsRecorded(max: nat, s: State, now: nat, e: Event, id: string)
    requires Inv(max, s) && id in s.tasks
    ensures id in Apply(max, s, now, e).rows
            && Apply(max, s, now, e).rows[id].head == s.rows[id].head == s.tasks[id].row.head
  {
    assert InStep(s.rows[id], s.tasks[id]);
    if e.Submit? {
      SubmitEffect(max, s, now, e);
    } else if e.TakeNext? {
      TakeEffect(s);
    } else if e.Restart? {
      RequeueKeepsHeads(max, Rebooted(s), now, s.created);
    } else {
      if e.Advance? && Working(s, e.id) { AdvanceAbsorbs(max, s, now, e.id); }
      WorkEffect(max, s, now, e);
    }
  }

  lemma {:induction false} RequeueKeepsHeads(max: nat, s: State, now: nat, ids: seq<string>)
    ensures var t := Requeue(max, s, now, ids);
            && t.created == s.created && t.pending == s.pending && t.newest == s.newest && t.rows.Keys == s.rows.Keys
            && t.tasks == s.tasks && t.settling == s.settling
            && forall id <- s.rows :: t.rows[id].head == s.rows[id].head && t.rows[id].key == s.rows[id].key
    decreases |ids|
  {
    if ids != [] {
      if ids[0] in s.rows && !Terminal(s.rows[ids[0]].state) {
        RequeueKeepsHeads(max, RequeueOne(max, s, now, ids[0]), now, ids[1..]);
      } else {
        RequeueKeepsHeads(max, s, now, ids[1..]);
      }
    }
  }

  // --------------------------------------------------------------- newest head --

  /** The newest run of this pull request carries this head. */
  predicate HeadIs(rows: map<string, Row>, created: seq<string>, key: Key, head: string) {
    var latest := Latest(rows, created, key);
    latest.Some? && latest.value in rows && rows[latest.value].head == head
  }

  predicate QueuedLatest(rows: map<string, Row>, created: seq<string>, key: Key, id: string) {
    Latest(rows, created, key) == Some(id) && id in rows && rows[id].state.Queued?
  }

  /** The newest run of every pull request carries the head submitted last. */
  predicate NewestHeads(s: State) {
    forall key <- s.newest :: HeadIs(s.rows, s.created, key, s.newest[key])
  }

  predicate PendingIsLatest(s: State) {
    forall key <- s.pending :: QueuedLatest(s.rows, s.created, key, s.pending[key])
  }

  /** What can make a pull request's queued run and its pending entry part ways: the run the
      entry names is cancelled, or a forced run is refused beside it. */
  predicate Hazard(max: nat, s: State, e: Event) {
    || (e.Cancel? && e.id in s.pending.Values)
    || (e.Submit? && e.force && e.key in s.pending && Lanes.Full(max, s.queue)
        && e.id !in s.rows && e.base != "" && e.head != "")
  }

  predicate Safe(max: nat, s: State, events: seq<(nat, Event)>)
    decreases |events|
  {
    events == []
    || (!Hazard(max, s, events[0].1) && Safe(max, Apply(max, s, events[0].0, events[0].1), events[1..]))
  }

  lemma {:induction false} LatestIsCreated(rows: map<string, Row>, created: seq<string>, key: Key)
    ensures var latest := Latest(rows, created, key);
            latest.Some? ==> latest.value in created && latest.value in rows && rows[latest.value].key == key
  {
    if created != [] {
      LatestIsCreated(rows, created[..|created| - 1], key);
    }
  }

  lemma {:induction false} LatestStable(rows: map<string, Row>, rows': map<string, Row>, created: seq<string>, key: Key)
    requires forall id <- created :: id in rows && id in rows' && rows'[id].key == rows[id].key
    ensures Latest(rows', created, key) == Latest(rows, created, key)
  {
    if created != [] {
      LatestStable(rows, rows', created[..|created| - 1], key);
    }
  }

  lemma LatestAfterCreation(rows: map<string, Row>, created: seq<string>, id: string, row: Row, key: Key)
    requires forall other <- created :: other in rows && other != id
    ensures Latest(rows[id := row], created + [id], key)
         == if key == row.key then Some(id) else Latest(rows, created, key)
  {
    assert (created + [id])[..|created|] == created;
    LatestStable(rows, rows[id := row], created, key);
  }

  /** Steps that keep every row's head and pull request, and every pending row queued. */
  lemma QuietStepKeepsNewest(s: State, t: State)
    requires RowsOk(s) && NewestHeads(s) && PendingIsLatest(s)
    requires t.created == s.created && t.newest == s.newest && t.rows.Keys == s.rows.Keys
    requires forall id <- s.rows :: t.rows[id].key == s.rows[id].key && t.rows[id].head == s.rows[id].head
    requires forall key <- t.pending ::
               key in s.pending && t.pending[key] == s.pending[key]
               && t.pending[key] in t.rows && t.rows[t.pending[key]].state.Queued?
    ensures NewestHeads(t) && PendingIsLatest(t)
  {
    forall key <- t.newest ensures HeadIs(t.rows, t.created, key, t.newest[key]) {
      LatestStable(s.rows, t.rows, s.created, key);
      assert HeadIs(s.rows, s.created, key, s.newest[key]);
    }
    forall key <- t.pending ensures QueuedLatest(t.rows, t.created, key, t.pending[key]) {
      LatestStable(s.rows, t.rows, s.created, key);
      assert QueuedLatest(s.rows, s.created, key, s.pending[key]);
    }
  }

  /** The row that `Create` leaves behind. */
  function NewRow(max: nat, s: State, now: nat, key: Key, base: string, head: string): Row {
    var row := Row(key, base, head, Queued, None, None);
    if Lanes.Full(max, s.queue) then Written(row, Cancelled, now) else row
  }

  lemma CreateEffect(max: nat, s: State, now: nat, id: string, key: Key, base: string, head: string)
    ensures var t := Create(max, s, now, id, key, base, head);
            && t.rows == s.rows[id := NewRow(max, s, now, key, base, head)] && t.created == s.created + [id]
            && t.newest == s.newest
            && t.pending == if Lanes.Full(max, s.queue) then s.pending else s.pending[key := id]
  {
  }

  /** A new row becomes the latest run of its own pull request and of no other. */
  lemma LatestBesidesNewRow(rows: map<string, Row>, created: seq<string>, id: string, row: Row, key: Key)
    requires (forall other <- created :: other in rows) && id !in rows
    ensures Latest(rows[id := row], created + [id], key)
         == if key == row.key then Some(id) else Latest(rows, created, key)
    ensures var latest := Latest(rows, created, key);
            latest.Some? ==> latest.value in rows && rows[id := row][latest.value] == rows[latest.value]
  {
    LatestAfterCreation(rows, created, id, row, key);
    LatestIsCreated(rows, created, key);
  }

  lemma NewRowKeepsHeads(rows: map<string, Row>, created: seq<string>, id: string, row: Row, newest: map<Key, string>)
    requires (forall other <- created :: other in rows) && id !in rows
    requires forall key <- newest :: HeadIs(rows, created, key, newest[key])
    ensures var newest' := newest[row.key := row.head];
            forall key <- newest' :: HeadIs(rows[id := row], created + [id], key, newest'[key])
  {
    var newest' := newest[row.key := row.head];
    forall key <- newest' ensures HeadIs(rows[id := row], created + [id], key, newest'[key]) {
      LatestBesidesNewRow(rows, created, id, row, key);
      assert key != row.key ==> HeadIs(rows, created, key, newest[key]);
    }
  }

  lemma NewRowKeepsPending(rows: map<string, Row>, created: seq<string>, id: string, row: Row,
                           pending: map<Key, string>)
    requires (forall other <- created :: other in rows) && id !in rows
    requires forall key <- pending :: key != row.key ==> QueuedLatest(rows, created, key, pending[key])
    requires row.key in pending ==> pending[row.key] == id && row.state.Queued?
    ensures forall key <- pending :: QueuedLatest(rows[id := row], created + [id], key, pending[key])
  {
    forall key <- pending ensures QueuedLatest(rows[id := row], created + [id], key, pending[key]) {
      LatestBesidesNewRow(rows, created, id, row, key);
      assert key != row.key ==> QueuedLatest(rows, created, key, pending[key]);
    }
  }

  lemma CreateKeepsNewest(max: nat, s: State, now: nat, id: string, key: Key, base: string, head: string)
    requires RowsOk(s) && NewestHeads(s) && PendingIsLatest(s) && id !in s.rows
    requires key in s.pending ==> !Lanes.Full(max, s.queue)
    ensures var t := Create(max, s.(newest := s.newest[key := head]), now, id, key, base, head);
            NewestHeads(t) && PendingIsLatest(t)
  {
    var row := NewRow(max, s, now, key, base, head);
    var pending := if Lanes.Full(max, s.queue) then s.pending else s.pending[key := id];
    CreateEffect(max, s.(newest := s.newest[key := head]), now, id, key, base, head);
    NewRowKeepsHeads(s.rows, s.created, id, row, s.newest);
    NewRowKeepsPending(s.rows, s.created, id, row, pending);
  }

  lemma SubmitKeepsNewest(max: nat, s: State, now: nat, e: Event)
    requires Inv(max, s) && NewestHeads(s) && PendingIsLatest(s) && e.Submit? && !Hazard(max, s, e)
    ensures NewestHeads(Apply(max, s, now, e)) && PendingIsLatest(Apply(max, s, now, e))
  {
    if e.base != "" && e.head != "" && e.id !in s.rows {
      if !e.force && SameCode(s, e.key, e.head) {
      } else if !e.force && e.key in s.pending {
        RetargetKeepsNewest(max, s, e.key, e.base, e.head);
      } else {
        CreateKeepsNewest(max, s, now, e.id, e.key, e.base, e.head);
      }
    }
  }

  lemma RetargetKeepsNewest(max: nat, s: State, key: Key, base: string, head: string)
    requires RowsOk(s) && PendingOk(s) && NewestHeads(s) && PendingIsLatest(s) && key in s.pending
    ensures var t := Retarget(s.(newest := s.newest[key := head]), s.pending[key], base, head);
            && NewestHeads(t) && PendingIsLatest(t)
            && t.rows[s.pending[key]].head == head
            && Latest(t.rows, t.created, key) == Some(s.pending[key])
  {
    var id := s.pending[key];
    var t := Retarget(s.(newest := s.newest[key := head]), id, base, head);
    assert QueuedLatest(s.rows, s.created, key, id);
    LatestStable(s.rows, t.rows, s.created, key);
    forall k <- t.newest ensures HeadIs(t.rows, t.created, k, t.newest[k]) {
      LatestStable(s.rows, t.rows, s.created, k);
      LatestIsCreated(s.rows, s.created, k);
      assert k != key ==> HeadIs(s.rows, s.created, k, s.newest[k]);
    }
    forall k <- t.pending ensures QueuedLatest(t.rows, t.created, k, t.pending[k]) {
      LatestStable(s.rows, t.rows, s.created, k);
      assert QueuedLatest(s.rows, s.created, k, s.pending[k]);
    }
  }

  /** No step of a worker or a consumer touches a run that a pending entry names. */
  lemma PendingRowsUntouched(max: nat, s: State, now: nat, e: Event)
    requires PendingOk(s) && !e.Submit? && !e.TakeNext? && !e.Restart?
             && Local(s, Apply(max, s, now, e), e.id, e.Cancel?)
    requires e.Cancel? ==> e.id !in s.pending.Values
    ensures var t := Apply(max, s, now, e);
            forall key <- t.pending ::
              key in s.pending && t.pending[key] == s.pending[key]
              && t.pending[key] in t.rows && t.rows[t.pending[key]] == s.rows[s.pending[key]]
  {
    var t := Apply(max, s, now, e);
    forall key <- t.pending
      ensures key in s.pending && t.pending[key] == s.pending[key]
              && t.pending[key] in t.rows && t.rows[t.pending[key]] == s.rows[s.pending[key]]
    {
      assert s.pending[key] in s.pending.Values && s.pending[key] !in s.tasks;
    }
  }

  lemma WorkKeepsNewest(max: nat, s: State, now: nat, e: Event)
    requires Inv(max, s) && NewestHeads(s) && PendingIsLatest(s) && !Hazard(max, s, e)
    requires !e.Submit? && !e.TakeNext? && !e.Restart?
    ensures NewestHeads(Apply(max, s, now, e)) && PendingIsLatest(Apply(max, s, now, e))
  {
    if e.Advance? && Working(s, e.id) { AdvanceAbsorbs(max, s, now, e.id); }
    WorkEffect(max, s, now, e);
    PendingRowsUntouched(max, s, now, e);
    QuietStepKeepsNewest(s, Apply(max, s, now, e));
  }

  lemma StepKeepsNewest(max: nat, s: State, now: nat, e: Event)
    requires Inv(max, s) && NewestHeads(s) && PendingIsLatest(s) && !Hazard(max, s, e)
    ensures NewestHeads(Apply(max, s, now, e)) && PendingIsLatest(Apply(max, s, now, e))
  {
    if e.Submit? {
      SubmitKeepsNewest(max, s, now, e);
    } else if e.TakeNext? {
      TakeEffect(s);
      QuietStepKeepsNewest(s, Take(s));
    } else if e.Restart? {
      RequeueKeepsHeads(max, Rebooted(s), now, s.created);
      QuietStepKeepsNewest(s, Reboot(max, s, now));
    } else {
      WorkKeepsNewest(max, s, now, e);
    }
  }

  /** The newest head is never lost: whatever is submitted, forced or not, taken, debounced,
      executed, cancelled, crashed or recovered, every pull request's newest run carries the
      head submitted last, as long as the two hazards are avoided. */
  lemma {:induction false} NewestHeadIsNeverLost(max: nat, s: State, events: seq<(nat, Event)>)
    requires Inv(max, s) && NewestHeads(s) && PendingIsLatest(s) && Safe(max, s, events)
    ensures NewestHeads(Run(max, s, events)) && PendingIsLatest(Run(max, s, events))
    decreases |events|
  {
    if events != [] {
      StepKeepsInv(max, s, events[0].0, events[0].1);
      StepKeepsNewest(max, s, events[0].0, events[0].1);
      NewestHeadIsNeverLost(max, Apply(max, s, events[0].0, events[0].1), events[1..]);
    }
  }

  /** If the latest run of a pull request is not its pending one, the next unforced submission
      of another head moves the pending run and leaves the latest as it is. */
  lemma StrayPendingLosesHead(max: nat, s: State, now: nat, key: Key, id: string, base: string, head: string,
                              latest: string)
    requires Latest(s.rows, s.created, key) == Some(latest) && latest in s.rows && s.rows[latest].head != head
    requires key in s.pending && (s.pending[key] != latest || !s.rows[latest].state.Queued?)
    requires (forall other <- s.created :: other in s.rows)
             && (s.pending[key] in s.rows ==> s.rows[s.pending[key]].key == key)
    requires id !in s.rows && base != "" && head != ""
    ensures var t := Apply(max, s, now, Submit(id, key, base, head, false));
            key in t.newest && t.newest[key] == head && !NewestHeads(t)
  {
    var t := Apply(max, s, now, Submit(id, key, base, head, false));
    LatestStable(s.rows, t.rows, s.created, key);
    assert t.rows[latest].head == s.rows[latest].head;
  }

  lemma CancelledPendingIsStray(max: nat, s: State, now: nat, key: Key)
    requires RowsOk(s) && PendingOk(s) && PendingIsLatest(s) && key in s.pending
    ensures var t := Apply(max, s, now, Cancel(s.pending[key]));
            && Latest(t.rows, t.created, key) == Some(s.pending[key]) && t.pending == s.pending
            && s.pending[key] in t.rows && t.rows[s.pending[key]].state.Cancelled?
            && t.rows[s.pending[key]].key == key && t.rows[s.pending[key]].head == s.rows[s.pending[key]].head
  {
    var t := Apply(max, s, now, Cancel(s.pending[key]));
    SetStateIsLocal(s, s.pending[key], Cancelled, now, true);
    assert t.rows == SetState(s, s.pending[key], Cancelled, now).rows;
    LatestStable(s.rows, t.rows, s.created, key);
  }

  lemma RefusedForcedIsStray(max: nat, s: State, now: nat, e: Event)
    requires Inv(max, s) && e.Submit? && e.force && e.key in s.pending && Lanes.Full(max, s.queue)
    requires e.id !in s.rows && e.base != "" && e.head != ""
    ensures var t := Apply(max, s, now, e);
            && Latest(t.rows, t.created, e.key) == Some(e.id) && t.pending == s.pending && s.pending[e.key] != e.id
            && e.id in t.rows && t.rows[e.id].head == e.head
            && s.pending[e.key] in t.rows && t.rows[s.pending[e.key]].key == e.key
  {
    var t := Apply(max, s, now, e);
    assert t.rows == s.rows[e.id := t.rows[e.id]];
    LatestAfterCreation(s.rows, s.created, e.id, t.rows[e.id], e.key);
  }

  /** Both hazards are real: after either, the next unforced submission of another head is lost. */
  lemma HazardsLoseTheNextHead(max: nat, s: State, now: nat, e: Event, key: Key, id: string, base: string, head: string)
    requires Inv(max, s) && PendingIsLatest(s) && Hazard(max, s, e)
    requires e.Cancel? ==> key in s.pending && s.pending[key] == e.id && head != s.rows[e.id].head
    requires e.Submit? ==> e.key == key && head != e.head
    requires id !in Apply(max, s, now, e).rows && base != "" && head != ""
    ensures var t := Apply(max, Apply(max, s, now, e), now, Submit(id, key, base, head, false));
            key in t.newest && t.newest[key] == head && !NewestHeads(t)
  {
    var t := Apply(max, s, now, e);
    StepKeepsInv(max, s, now, e);
    if e.Cancel? {
      CancelledPendingIsStray(max, s, now, key);
      StrayPendingLosesHead(max, t, now, key, id, base, head, e.id);
    } else {
      RefusedForcedIsStray(max, s, now, e);
      StrayPendingLosesHead(max, t, now, key, id, base, head, e.id);
    }
  }

  /** An unforced, complete submission for this pull request. */
  predicate Unforced(s: State, e: Event, key: Key) {
    e.Submit? && e.key == key && !e.force && e.base != "" && e.head != "" && e.id !in s.rows
  }

  lemma UnforcedEffect(max: nat, s: State, now: nat, e: Event, key: Key)
    requires Unforced(s, e, key) && key in s.pending
    ensures var t := Apply(max, s, now, e);
            && t.created == s.created && t.pending == s.pending && t.queue == s.queue && t.rows.Keys == s.rows.Keys
            && t.newest == s.newest[key := e.head]
  {
  }

  /** Still one run for the pull request, the pending one, with this head. */
  predicate OneRun(s: State, t: State, key: Key, head: string) {
    && t.created == s.created && t.pending == s.pending && t.queue == s.queue && t.rows.Keys == s.rows.Keys
    && key in t.pending && Latest(t.rows, t.created, key) == Some(t.pending[key])
    && t.pending[key] in t.rows && t.rows[t.pending[key]].head == head
  }

  lemma OneOfTheStorm(max: nat, s: State, now: nat, e: Event, key: Key)
    requires Inv(max, s) && NewestHeads(s) && PendingIsLatest(s) && key in s.pending && Unforced(s, e, key)
    ensures var t := Apply(max, s, now, e);
            Inv(max, t) && NewestHeads(t) && PendingIsLatest(t) && OneRun(s, t, key, e.head)
  {
    var t := Apply(max, s, now, e);
    UnforcedEffect(max, s, now, e, key);
    StepKeepsInv(max, s, now, e);
    SubmitKeepsNewest(max, s, now, e);
    StormIsOver(t, key);
  }

  lemma StormIsOver(t: State, key: Key)
    requires NewestHeads(t) && PendingIsLatest(t) && key in t.pending && key in t.newest
    ensures Latest(t.rows, t.created, key) == Some(t.pending[key])
            && t.pending[key] in t.rows && t.rows[t.pending[key]].head == t.newest[key]
  {
  }

  lemma OneRunChains(s: State, t: State, u: State, key: Key, head: string, last: string)
    requires OneRun(s, t, key, head) && OneRun(t, u, key, last)
    ensures OneRun(s, u, key, last)
  {
  }

  /** A storm of unforced submissions while a run is pending keeps that one run, pointed at
      the last head. */
  lemma {:induction false} StormKeepsOneRun(max: nat, s: State, key: Key, storm: seq<(nat, Event)>, last: (nat, Event))
    requires Inv(max, s) && NewestHeads(s) && PendingIsLatest(s) && key in s.pending
    requires (forall e <- storm :: Unforced(s, e.1, key)) && Unforced(s, last.1, key)
    ensures OneRun(s, Run(max, s, storm + [last]), key, last.1.head)
    decreases |storm|
  {
    if storm == [] {
      assert (storm + [last])[1..] == [];
      OneOfTheStorm(max, s, last.0, last.1, key);
    } else {
      var t := Apply(max, s, storm[0].0, storm[0].1);
      OneOfTheStorm(max, s, storm[0].0, storm[0].1, key);
      assert (storm + [last])[0] == storm[0] && (storm + [last])[1..] == storm[1..] + [last];
      StormKeepsOneRun(max, t, key, storm[1..], last);
      OneRunChains(s, t, Run(max, s, storm + [last]), key, storm[0].1.head, last.1.head);
    }
  }

  // ------------------------------------------------------------ no run forgotten --

  /** Every unfinished run waits in the queue, sleeps out its debounce, or has a worker. */
  predicate Housed(s: State) {
    forall id <- s.rows :: !Terminal(s.rows[id].state) ==> HousedAt(s, id)
  }

  predicate HousedAt(s: State, id: string) {
    id in Lanes.Ids(s.queue) || id in s.settling || Working(s, id)
  }

  function Unfinished(rows: map<string, Row>, ids: seq<string>): seq<string> {
    if ids == [] then []
    else (if ids[0] in rows && !Terminal(rows[ids[0]].state) then [ids[0]] else []) + Unfinished(rows, ids[1..])
  }

  lemma TakenKeepsOneHoused(s: State, queue: Lanes.Queue, turn: Option<Lanes.Turn>, id: string)
    requires id in s.rows && !Terminal(s.rows[id].state) && HousedAt(s, id)
    requires id in Lanes.Ids(s.queue) ==> id in Lanes.Ids(queue) || (turn.Some? && turn.value.1 == id)
    ensures HousedAt(Taken(s, queue, turn), id)
  {
  }

  lemma TakeKeepsOneHoused(max: nat, s: State, id: string)
    requires Once(max, s.queue) && id in s.rows && !Terminal(s.rows[id].state) && HousedAt(s, id)
    ensures HousedAt(Take(s), id)
  {
    DispatchOnce(max, s.queue);
    TakenKeepsOneHoused(s, Lanes.Dispatch(s.queue).0, Lanes.Dispatch(s.queue).1, id);
  }

  lemma TakeKeepsHoused(max: nat, s: State)
    requires Once(max, s.queue) && Housed(s)
    ensures Housed(Take(s))
  {
    TakeEffect(s);
    forall id <- s.rows | !Terminal(s.rows[id].state) ensures HousedAt(Take(s), id) {
      TakeKeepsOneHoused(max, s, id);
    }
  }

  lemma CreateKeepsHoused(max: nat, s: State, now: nat, id: string, key: Key, base: string, head: string)
    requires Once(max, s.queue) && Housed(s) && id !in s.rows && id !in Lanes.Ids(s.queue)
    ensures Housed(Create(max, s, now, id, key, base, head))
  {
    var t := Create(max, s, now, id, key, base, head);
    forall other <- t.rows | !Terminal(t.rows[other].state) ensures HousedAt(t, other) {
      if other == id {
        NewRunIsHoused(max, s, now, id, key, base, head);
      } else {
        assert t.rows[other] == s.rows[other];
        OthersStayHoused(max, s, now, id, key, base, head, other);
      }
    }
  }

  lemma NewRunIsHoused(max: nat, s: State, now: nat, id: string, key: Key, base: string, head: string)
    requires Once(max, s.queue) && id !in Lanes.Ids(s.queue)
    ensures var t := Create(max, s, now, id, key, base, head); !Terminal(t.rows[id].state) ==> id in Lanes.Ids(t.queue)
  {
    AdmitOnce(max, s.queue, key.0, id);
  }

  lemma OthersStayHoused(max: nat, s: State, now: nat, id: string, key: Key, base: string, head: string, other: string)
    requires Once(max, s.queue) && id !in Lanes.Ids(s.queue) && other != id && HousedAt(s, other)
    ensures HousedAt(Create(max, s, now, id, key, base, head), other)
  {
    AdmitOnce(max, s.queue, key.0, id);
  }

  lemma SubmitKeepsHoused(max: nat, s: State, now: nat, e: Event)
    requires Once(max, s.queue) && Housed(s) && e.Submit? && (e.id !in s.rows ==> e.id !in Lanes.Ids(s.queue))
    ensures Housed(Apply(max, s, now, e))
  {
    if e.base != "" && e.head != "" && e.id !in s.rows {
      var t := s.(newest := s.newest[e.key := e.head]);
      if !e.force && SameCode(s, e.key, e.head) {
        SameHousing(s, t);
      } else if !e.force && e.key in s.pending {
        SameHousing(s, Retarget(t, s.pending[e.key], e.base, e.head));
      } else {
        SameHousing(s, t);
        CreateKeepsHoused(max, t, now, e.id, e.key, e.base, e.head);
      }
    }
  }

  lemma SameHousing(s: State, t: State)
    requires Housed(s) && t.queue == s.queue && t.settling == s.settling && t.tasks == s.tasks
             && t.rows.Keys == s.rows.Keys
    requires forall id <- s.rows :: t.rows[id].state == s.rows[id].state
    ensures Housed(t)
  {
    forall id <- t.rows | !Terminal(t.rows[id].state) ensures HousedAt(t, id) {
      assert HousedAt(s, id);
    }
  }

  predicate AllInStep(s: State) {
    forall id <- s.tasks :: id in s.rows && InStep(s.rows[id], s.tasks[id])
  }

  lemma WorkKeepsOneHoused(max: nat, s: State, now: nat, e: Event, id: string)
    requires !e.Submit? && !e.TakeNext? && !e.Restart? && AllInStep(Apply(max, s, now, e))
    requires HousedAt(s, id) && id in Apply(max, s, now, e).rows && !Terminal(Apply(max, s, now, e).rows[id].state)
    requires id in s.rows
    ensures HousedAt(Apply(max, s, now, e), id)
  {
    var t := Apply(max, s, now, e);
    assert t.queue == s.queue;
    if id in t.tasks {
      assert InStep(t.rows[id], t.tasks[id]);
    }
  }

  lemma WorkKeepsHoused(max: nat, s: State, now: nat, e: Event)
    requires Housed(s) && !e.Submit? && !e.TakeNext? && !e.Restart?
    requires AllInStep(Apply(max, s, now, e)) && Apply(max, s, now, e).rows.Keys == s.rows.Keys
    requires forall id <- s.rows :: Absorbed(s.rows[id], Apply(max, s, now, e).rows[id])
    ensures Housed(Apply(max, s, now, e))
  {
    var t := Apply(max, s, now, e);
    forall id <- t.rows | !Terminal(t.rows[id].state) ensures HousedAt(t, id) {
      assert !Terminal(s.rows[id].state);
      WorkKeepsOneHoused(max, s, now, e, id);
    }
  }

  lemma RequeueOneWithRoom(max: nat, s: State, now: nat, id: string)
    requires Once(max, s.queue) && id in s.rows && !Terminal(s.rows[id].state) && id !in Lanes.Ids(s.queue)
    requires s.queue.depth < max
    ensures var t := RequeueOne(max, s, now, id);
            && Once(max, t.queue) && t.queue.depth == s.queue.depth + 1 && id in Lanes.Ids(t.queue)
            && (forall other <- Lanes.Ids(t.queue) :: other == id || other in Lanes.Ids(s.queue))
            && (forall other <- Lanes.Ids(s.queue) :: other in Lanes.Ids(t.queue))
            && t.rows == s.rows[id := Written(s.rows[id], Queued, now)]
  {
    AdmitOnce(max, s.queue, s.rows[id].key.0, id);
  }

  /** What `RequeueWithRoom` needs of the queue and of the ids still to be requeued. */
  ghost predicate Roomy(max: nat, s: State, ids: seq<string>) {
    && Once(max, s.queue) && Lanes.Distinct(ids) && (forall other <- ids :: other !in Lanes.Ids(s.queue))
    && |Unfinished(s.rows, ids)| + s.queue.depth <= max
  }

  lemma RequeueOneStaysRoomy(max: nat, s: State, now: nat, ids: seq<string>)
    requires Roomy(max, s, ids) && ids != [] && ids[0] in s.rows && !Terminal(s.rows[ids[0]].state)
    ensures var t := RequeueOne(max, s, now, ids[0]);
            && Roomy(max, t, ids[1..]) && ids[0] in Lanes.Ids(t.queue)
            && (forall other <- Lanes.Ids(s.queue) :: other in Lanes.Ids(t.queue))
            && Unfinished(t.rows, ids[1..]) == Unfinished(s.rows, ids[1..])
  {
    var t := RequeueOne(max, s, now, ids[0]);
    assert Unfinished(s.rows, ids) == [ids[0]] + Unfinished(s.rows, ids[1..]);
    RequeueOneWithRoom(max, s, now, ids[0]);
    UnfinishedStable(s.rows, t.rows, ids[1..]);
    forall other <- ids[1..] ensures other !in Lanes.Ids(t.queue) {
      assert other in ids && other != ids[0];
    }
  }

  /** Requeueing with room for everyone houses everyone. */
  lemma {:induction false} RequeueWithRoom(max: nat, s: State, now: nat, ids: seq<string>, id: string)
    requires Roomy(max, s, ids)
    requires id in Lanes.Ids(s.queue) || id in Unfinished(s.rows, ids)
    ensures id in Lanes.Ids(Requeue(max, s, now, ids).queue)
    decreases |ids|
  {
    if ids != [] {
      if ids[0] in s.rows && !Terminal(s.rows[ids[0]].state) {
        RequeueOneStaysRoomy(max, s, now, ids);
        RequeueWithRoom(max, RequeueOne(max, s, now, ids[0]), now, ids[1..], id);
      } else {
        RequeueWithRoom(max, s, now, ids[1..], id);
      }
    }
  }

  lemma {:induction false} UnfinishedStable(rows: map<string, Row>, rows': map<string, Row>, ids: seq<string>)
    requires forall id <- ids ::
               && (id in rows <==> id in rows')
               && (id in rows ==> (Terminal(rows[id].state) <==> Terminal(rows'[id].state)))
    ensures Unfinished(rows', ids) == Unfinished(rows, ids)
  {
    if ids != [] {
      UnfinishedStable(rows, rows', ids[1..]);
    }
  }

  lemma {:induction false} UnfinishedElements(rows: map<string, Row>, ids: seq<string>)
    requires Lanes.Distinct(ids)
    ensures Lanes.Distinct(Unfinished(rows, ids))
    ensures forall id :: id in Unfinished(rows, ids) <==> id in ids && id in rows && !Terminal(rows[id].state)
  {
    if ids != [] {
      UnfinishedElements(rows, ids[1..]);
    }
  }

  lemma {:induction false} DistinctWithin(ids: seq<string>, m: multiset<string>)
    requires Lanes.Distinct(ids) && forall id <- ids :: id in m
    ensures |ids| <= |m|
  {
    if ids != [] {
      DistinctWithin(ids[1..], m - multiset{ids[0]});
    }
  }

  lemma {:induction false} IdsCount(lanes: map<string, seq<string>>, order: seq<string>)
    ensures |Lanes.IdsIn(lanes, order)| == Lanes.Waiting(lanes, order)
  {
    if order != [] {
      IdsCount(lanes, order[1..]);
    }
  }

  /** A requeue finishes nothing and starts nothing. */
  lemma {:induction false} RequeueKeepsUnfinished(max: nat, s: State, now: nat, ids: seq<string>)
    ensures var t := Requeue(max, s, now, ids);
            && t.rows.Keys == s.rows.Keys
            && forall id <- s.rows :: Terminal(t.rows[id].state) <==> Terminal(s.rows[id].state)
    decreases |ids|
  {
    if ids != [] {
      if ids[0] in s.rows && !Terminal(s.rows[ids[0]].state) {
        RequeueKeepsUnfinished(max, RequeueOne(max, s, now, ids[0]), now, ids[1..]);
      } else {
        RequeueKeepsUnfinished(max, s, now, ids[1..]);
      }
    }
  }

  lemma RebootHouses(max: nat, s: State, now: nat)
    requires RowsOk(s) && |Unfinished(s.rows, s.created)| <= max
    ensures Housed(Reboot(max, s, now))
  {
    RequeueKeepsUnfinished(max, Rebooted(s), now, s.created);
    UnfinishedElements(s.rows, s.created);
    var t := Reboot(max, s, now);
    forall id <- t.rows | !Terminal(t.rows[id].state) ensures HousedAt(t, id) {
      RequeueWithRoom(max, Rebooted(s), now, s.created, id);
    }
  }

  lemma RebootOverflows(max: nat, s: State, now: nat)
    requires RowsOk(s) && |Unfinished(s.rows, s.created)| > max
    requires Lanes.Valid(max, Reboot(max, s, now).queue)
    ensures !Housed(Reboot(max, s, now))
  {
    var t := Reboot(max, s, now);
    RequeueKeepsUnfinished(max, Rebooted(s), now, s.created);
    RequeueKeepsHeads(max, Rebooted(s), now, s.created);
    UnfinishedElements(s.rows, s.created);
    IdsCount(t.queue.lanes, t.queue.order);
    if forall id <- Unfinished(s.rows, s.created) :: id in Lanes.Ids(t.queue) {
      DistinctWithin(Unfinished(s.rows, s.created), Lanes.Ids(t.queue));
      assert false;
    }
    var id :| id in Unfinished(s.rows, s.created) && id !in Lanes.Ids(t.queue);
    assert id in t.rows && !Terminal(t.rows[id].state) && id !in t.settling && id !in t.tasks;
  }

  /** Boot recovery puts every unfinished run back exactly if they all fit in the queue:
      `requeue` does not look at whether its run was admitted. */
  lemma RestartHousesExactlyWhen(max: nat, s: State, now: nat)
    requires Inv(max, s)
    ensures Housed(Reboot(max, s, now)) <==> |Unfinished(s.rows, s.created)| <= max
  {
    if |Unfinished(s.rows, s.created)| <= max {
      RebootHouses(max, s, now);
    } else {
      StepKeepsInv(max, s, now, Restart);
      RebootOverflows(max, s, now);
    }
  }

  predicate RoomAtBoot(max: nat, s: State, events: seq<(nat, Event)>)
    decreases |events|
  {
    events == []
    || ((events[0].1.Restart? ==> |Unfinished(s.rows, s.created)| <= max)
        && RoomAtBoot(max, Apply(max, s, events[0].0, events[0].1), events[1..]))
  }

  lemma WorkStepKeepsHoused(max: nat, s: State, now: nat, e: Event)
    requires Inv(max, s) && Housed(s) && !e.Submit? && !e.TakeNext? && !e.Restart?
    ensures Housed(Apply(max, s, now, e))
  {
    var t := Apply(max, s, now, e);
    StepKeepsInv(max, s, now, e);
    assert AllInStep(t);
    if e.Advance? && Working(s, e.id) { AdvanceAbsorbs(max, s, now, e.id); }
    WorkEffect(max, s, now, e);
    forall id <- s.rows ensures Absorbed(s.rows[id], t.rows[id]) {
      assert id != e.id ==> t.rows[id] == s.rows[id];
    }
    WorkKeepsHoused(max, s, now, e);
  }

  lemma StepKeepsHoused(max: nat, s: State, now: nat, e: Event)
    requires Inv(max, s) && Housed(s) && (e.Restart? ==> |Unfinished(s.rows, s.created)| <= max)
    ensures Housed(Apply(max, s, now, e))
  {
    if e.Submit? {
      SubmitKeepsHoused(max, s, now, e);
    } else if e.TakeNext? {
      TakeKeepsHoused(max, s);
    } else if e.Restart? {
      RestartHousesExactlyWhen(max, s, now);
    } else {
      WorkStepKeepsHoused(max, s, now, e);
    }
  }

  /** Everything the results above ask of their first state holds of an empty service. */
  lemma EmptyServiceQualifies(max: nat)
    ensures Inv(max, INIT) && NewestHeads(INIT) && PendingIsLatest(INIT) && Housed(INIT)
  {
  }

  /** No unfinished run is ever forgotten, if every restart finds room for all of them. */
  lemma {:induction false} NoRunIsForgotten(max: nat, s: State, events: seq<(nat, Event)>)
    requires Inv(max, s) && Housed(s) && RoomAtBoot(max, s, events)
    ensures Housed(Run(max, s, events))
    decreases |events|
  {
    if events != [] {
      StepKeepsInv(max, s, events[0].0, events[0].1);
      StepKeepsHoused(max, s, events[0].0, events[0].1);
      NoRunIsForgotten(max, Apply(max, s, events[0].0, events[0].1), events[1..]);
    }
  }
}
