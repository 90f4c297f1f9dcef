/**
 Runs from submission to a terminal state: the rows of the store, the scheduler's
 queue, pending entries and debounce sleeps, the worker's pipeline, cancellation and
 boot recovery, as one state machine over the atomic steps of the event loop.

 A worker checks `can_transition` against the run it holds, not against the row, and
 several writers do not check it at all; what keeps the rows in order is proved here.
 */
module Engine {
  import opened Options
  import Lanes

  datatype RunState =
    | Queued | Preparing | ImageBuild | BaseRun | HeadRun | Probing | Adjudicating | Rendering
    | Done | Failed | Cancelled

  /** A pull request: its repository and number. */
  type Key = (string, nat)

  datatype Row = Row(key: Key, base: string, head: string, state: RunState, started: Option<nat>, finished: Option<nat>)

  /** An executing run: the worker's copy of the row, the next step of the pipeline, and
      whether its task was cancelled. */
  datatype Task = Task(row: Row, pc: nat, cancelled: bool)

  /** `created` lists the run ids in order of creation. `newest` is a ghost of the
      scheduler: the head of the last complete submission for each pull request. */
  datatype State = State(
    rows: map<string, Row>, created: seq<string>, queue: Lanes.Queue, pending: map<Key, string>,
    settling: set<string>, tasks: map<string, Task>, newest: map<Key, string>)

  datatype Event =
    | Submit(id: string, key: Key, base: string, head: string, force: bool)
    | TakeNext
    | Wake(id: string)
    | ForkPoint(id: string, base: string)
    | Advance(id: string)
    | SkipAdjudication(id: string)
    | Crash(id: string)
    | Reap(id: string)
    | Cancel(id: string)
    | Restart

  // --------------------------------------------------------------- transitions --

  predicate Terminal(s: RunState) {
    s.Done? || s.Failed? || s.Cancelled?
  }

  /** The place in ORDER, or -1 for a state that is not in it. */
  function Index(s: RunState): int {
    match s
    case Queued => 0
    case Preparing => 1
    case ImageBuild => 2
    case BaseRun => 3
    case HeadRun => 4
    case Probing => 5
    case Adjudicating => 6
    case Rendering => 7
    case Done => 8
    case _ => -1
  }

  predicate CanTransition(current: RunState, target: RunState) {
    if Terminal(current) then false
    else if target.Failed? || target.Cancelled? then true
    else if current.Queued? && target.Preparing? then true
    else if Index(current) < 0 || Index(target) < 0 then false
    else Index(target) > Index(current)
  }

  /** The pipeline's targets, in order; the adjudication may be skipped. */
  function Target(pc: nat): RunState
    requires pc < 7
  {
    [Preparing, BaseRun, HeadRun, Probing, Adjudicating, Rendering, Done][pc]
  }

  const ADJUDICATE := 4
  const FINISHED := 7

  // --------------------------------------------------------------------- store --

  /** `Store.set_run_state` */
  function Written(row: Row, state: RunState, now: nat): Row {
    row.(state := state,
         started := if state.Queued? || row.started.Some? then row.started else Some(now),
         finished := if Terminal(state) then Some(now) else row.finished)
  }

  function SetState(s: State, id: string, state: RunState, now: nat): State {
    if id in s.rows then s.(rows := s.rows[id := Written(s.rows[id], state, now)]) else s
  }

  /** `Store.latest_run`: the newest row of a pull request. */
  function Latest(rows: map<string, Row>, created: seq<string>, key: Key): Option<string> {
    if created == [] then None
    else
      var id := created[|created| - 1];
      if id in rows && rows[id].key == key then Some(id) else Latest(rows, created[..|created| - 1], key)
  }

  /** `Store.retarget`: only a run that has not started moves. */
  function Retarget(s: State, id: string, base: string, head: string): State {
    if id in s.rows && s.rows[id].state.Queued?
    then s.(rows := s.rows[id := s.rows[id].(base := base, head := head)])
    else s
  }

  // ----------------------------------------------------------------- scheduler --

  /** The head was verified, is being verified or is about to be. */
  predicate SameCode(s: State, key: Key, head: string) {
    var latest := Latest(s.rows, s.created, key);
    latest.Some? && latest.value in s.rows && s.rows[latest.value].head == head
    && !s.rows[latest.value].state.Failed? && !s.rows[latest.value].state.Cancelled?
  }

  function Create(max: nat, s: State, now: nat, id: string, key: Key, base: string, head: string): State {
    var made := s.(rows := s.rows[id := Row(key, base, head, Queued, None, None)], created := s.created + [id]);
    if Lanes.Full(max, s.queue) then SetState(made, id, Cancelled, now)
    else made.(queue := Lanes.Admit(max, s.queue, key.0, id), pending := s.pending[key := id])
  }

  function SubmitRun(max: nat, s: State, now: nat, id: string, key: Key, base: string, head: string,
                     force: bool): State {
    if base == "" || head == "" || id in s.rows then s
    else
      var t := s.(newest := s.newest[key := head]);
      if !force && SameCode(s, key, head) then t
      else if !force && key in s.pending then Retarget(t, s.pending[key], base, head)
      else Create(max, t, now, id, key, base, head)
  }

  function Start(s: State, id: string): State
    requires id in s.rows
  {
    s.(tasks := s.tasks[id := Task(s.rows[id], 0, false)])
  }

  /** A consumer takes a run; if its pull request has a pending entry it sleeps first. */
  function Take(s: State): State {
    var (queue, turn) := Lanes.Dispatch(s.queue);
    Taken(s, queue, turn)
  }

  function Taken(s: State, queue: Lanes.Queue, turn: Option<Lanes.Turn>): State {
    var t := s.(queue := queue);
    if turn.None? || turn.value.1 !in s.rows || s.rows[turn.value.1].state.Cancelled? then t
    else if s.rows[turn.value.1].key in s.pending then t.(settling := s.settling + {turn.value.1})
    else Start(t, turn.value.1)
  }

  /** `unfinished_runs` and `requeue`, oldest first: every unfinished row is set to queued,
      and enqueued while there is room. */
  function Requeue(max: nat, s: State, now: nat, ids: seq<string>): State
    decreases |ids|
  {
    if ids == [] then s
    else
      var id := ids[0];
      if id in s.rows && !Terminal(s.rows[id].state) then
        Requeue(max, RequeueOne(max, s, now, id), now, ids[1..])
      else Requeue(max, s, now, ids[1..])
  }

  function RequeueOne(max: nat, s: State, now: nat, id: string): State
    requires id in s.rows
  {
    SetState(s, id, Queued, now).(queue := Lanes.Admit(max, s.queue, s.rows[id].key.0, id))
  }

  /** Nothing but the rows survives a restart. */
  function Rebooted(s: State): State {
    s.(queue := Lanes.EMPTY, pending := map[], settling := {}, tasks := map[])
  }

  function Reboot(max: nat, s: State, now: nat): State {
    Requeue(max, Rebooted(s), now, s.created)
  }

  // -------------------------------------------------------------------- worker --

  predicate Working(s: State, id: string) {
    id in s.tasks && id in s.rows && !s.tasks[id].cancelled && s.tasks[id].pc < FINISHED
  }

  /** `RunWorker._advance` at the task's place in the pipeline. The step into ADJUDICATING
      is made inside `_adjudicate`, which does not hand the new row back. */
  function AdvanceTask(s: State, now: nat, id: string): State
    requires Working(s, id)
  {
    var task := s.tasks[id];
    if CanTransition(task.row.state, Target(task.pc)) then
      var t := SetState(s, id, Target(task.pc), now);
      t.(tasks := s.tasks[id := Task(if task.pc == ADJUDICATE then task.row else t.rows[id], task.pc + 1, false)])
    else s.(tasks := s.tasks[id := task.(pc := task.pc + 1)])
  }

  function Apply(max: nat, s: State, now: nat, e: Event): State {
    match e
    case Submit(id, key, base, head, force) => SubmitRun(max, s, now, id, key, base, head, force)
    case TakeNext => Take(s)
    case Wake(id) =>
      if id in s.settling && id in s.rows
      then Start(s.(settling := s.settling - {id}, pending := s.pending - {s.rows[id].key}), id)
      else s
    case ForkPoint(id, base) =>
      if Working(s, id) && s.tasks[id].pc == 1
      then s.(rows := s.rows[id := s.rows[id].(base := base)],
              tasks := s.tasks[id := s.tasks[id].(row := s.tasks[id].row.(base := base))])
      else s
    case Advance(id) => if Working(s, id) then AdvanceTask(s, now, id) else s
    case SkipAdjudication(id) =>
      if Working(s, id) && s.tasks[id].pc == ADJUDICATE
      then s.(tasks := s.tasks[id := s.tasks[id].(pc := ADJUDICATE + 1)])
      else s
    case Crash(id) =>
      if Working(s, id)
      then SetState(s, id, Failed, now).(tasks := s.tasks[id := s.tasks[id].(pc := FINISHED)])
      else s
    case Reap(id) =>
      if id in s.tasks && s.tasks[id].cancelled then SetState(s, id, Cancelled, now).(tasks := s.tasks - {id})
      else if id in s.tasks && s.tasks[id].pc >= FINISHED then s.(tasks := s.tasks - {id})
      else s
    case Cancel(id) =>
      var t := SetState(s, id, Cancelled, now);
      if id in s.tasks && s.tasks[id].pc < FINISHED
      then t.(tasks := s.tasks[id := s.tasks[id].(cancelled := true)])
      else t
    case Restart => Reboot(max, s, now)
  }

  function Run(max: nat, s: State, events: seq<(nat, Event)>): State
    decreases |events|
  {
    if events == [] then s else Run(max, Apply(max, s, events[0].0, events[0].1), events[1..])
  }

  const INIT := State(map[], [], Lanes.EMPTY, map[], {}, map[], map[])

  // ---------------------------------------------------------------- invariant --

  /** The state a worker's copy has when the pipeline is at `pc`. */
  function Reached(pc: nat): RunState
    requires pc < 7
  {
    [Queued, Preparing, BaseRun, HeadRun, Probing, Probing, Rendering][pc]
  }

  /** The worker's copy and the row: both terminal, or in step, except that after an
      adjudication the row is ahead of the copy. */
  predicate InStep(row: Row, task: Task) {
    && task.row.key == row.key && task.row.head == row.head
    && task.pc <= FINISHED
    && (task.cancelled || task.pc == FINISHED ==> Terminal(row.state))
    && (!task.cancelled && task.pc < FINISHED ==>
          || (Terminal(row.state) && Terminal(task.row.state))
          || (task.row.state == Reached(task.pc)
              && (row.state == task.row.state || (task.pc == ADJUDICATE + 1 && row.state == Adjudicating))))
  }

  ghost predicate RowsOk(s: State) {
    && Lanes.Distinct(s.created)
    && (forall id :: id in s.rows <==> id in s.created)
    && (forall id <- s.rows :: s.rows[id].finished.Some? <==> Terminal(s.rows[id].state))
  }

  /** A run is in at most one of the queue, the debounce sleeps and the workers. */
  ghost predicate Placed(max: nat, s: State) {
    && Lanes.Valid(max, s.queue)
    && (forall id <- Lanes.Ids(s.queue) ::
          && Lanes.Ids(s.queue)[id] == 1 && id !in s.settling && id !in s.tasks
          && id in s.rows && (s.rows[id].state.Queued? || s.rows[id].state.Cancelled?))
    && (forall id <- s.settling ::
          id !in s.tasks && id in s.rows && (s.rows[id].state.Queued? || s.rows[id].state.Cancelled?))
    && (forall id <- s.tasks :: id in s.rows && InStep(s.rows[id], s.tasks[id]))
  }

  /** A pending entry names a run of its own pull request that no worker has. */
  ghost predicate PendingOk(s: State) {
    forall key <- s.pending ::
      s.pending[key] in s.rows && s.rows[s.pending[key]].key == key && s.pending[key] !in s.tasks
  }

  ghost predicate Inv(max: nat, s: State) {
    RowsOk(s) && Placed(max, s) && PendingOk(s)
  }

  // ------------------------------------------------------- every step keeps it --

  lemma SubmitKeepsInv(max: nat, s: State, now: nat, id: string, key: Key, base: string, head: string, force: bool)
    requires Inv(max, s)
    ensures Inv(max, SubmitRun(max, s, now, id, key, base, head, force))
  {
    if base != "" && head != "" && id !in s.rows {
      var t := s.(newest := s.newest[key := head]);
      if !force && SameCode(s, key, head) {
      } else if !force && key in s.pending {
        RetargetKeepsInv(max, t, s.pending[key], base, head);
      } else {
        CreateKeepsInv(max, t, now, id, key, base, head);
      }
    }
  }

  /** A row that no worker has can be replaced, if it stays queued or cancelled. */
  lemma RowChangeKeepsInv(max: nat, s: State, id: string, row: Row)
    requires Inv(max, s) && id in s.rows && id !in s.tasks && row.key == s.rows[id].key
    requires (row.state.Queued? || row.state.Cancelled?) && (row.finished.Some? <==> Terminal(row.state))
    ensures Inv(max, s.(rows := s.rows[id := row]))
  {
    var t := s.(rows := s.rows[id := row]);
    assert RowsOk(t);
    RowChangeKeepsPlaced(max, s, id, row);
    RowChangeKeepsPending(s, id, row);
  }

  lemma RowChangeKeepsPlaced(max: nat, s: State, id: string, row: Row)
    requires Placed(max, s) && id in s.rows && id !in s.tasks && (row.state.Queued? || row.state.Cancelled?)
    ensures Placed(max, s.(rows := s.rows[id := row]))
  {
  }

  lemma RowChangeKeepsPending(s: State, id: string, row: Row)
    requires PendingOk(s) && id in s.rows && row.key == s.rows[id].key
    ensures PendingOk(s.(rows := s.rows[id := row]))
  {
  }

  lemma RetargetKeepsInv(max: nat, s: State, id: string, base: string, head: string)
    requires Inv(max, s) && id !in s.tasks
    ensures Inv(max, Retarget(s, id, base, head))
  {
    if id in s.rows && s.rows[id].state.Queued? {
      RowChangeKeepsInv(max, s, id, s.rows[id].(base := base, head := head));
    }
  }

  /** A new row touches nothing that is already there. */
  lemma NewRowKeepsInv(max: nat, s: State, id: string, row: Row)
    requires Inv(max, s) && id !in s.rows && (row.finished.Some? <==> Terminal(row.state))
    ensures var t := s.(rows := s.rows[id := row], created := s.created + [id]);
            Inv(max, t) && id !in t.settling && id !in t.tasks && id !in Lanes.Ids(t.queue)
            && forall key <- t.pending :: t.pending[key] != id
  {
  }

  ghost predicate Once(max: nat, q: Lanes.Queue) {
    Lanes.Valid(max, q) && forall id <- Lanes.Ids(q) :: Lanes.Ids(q)[id] == 1
  }

  lemma AdmitOnce(max: nat, q: Lanes.Queue, repo: string, id: string)
    requires Once(max, q) && id !in Lanes.Ids(q)
    ensures Once(max, Lanes.Admit(max, q, repo, id))
    ensures forall other <- Lanes.Ids(Lanes.Admit(max, q, repo, id)) :: other == id || other in Lanes.Ids(q)
    ensures forall other <- Lanes.Ids(q) :: other in Lanes.Ids(Lanes.Admit(max, q, repo, id))
    ensures !Lanes.Full(max, q) ==> id in Lanes.Ids(Lanes.Admit(max, q, repo, id))
  {
    Lanes.AdmitKeepsValid(max, q, repo, id);
    if !Lanes.Full(max, q) { Lanes.AdmitAddsId(max, q, repo, id); }
  }

  /** Replacing the queue by one whose ids are accounted for. */
  lemma QueueChangeKeepsInv(max: nat, s: State, q: Lanes.Queue)
    requires Inv(max, s) && Once(max, q)
    requires forall id <- Lanes.Ids(q) ::
               id in Lanes.Ids(s.queue)
               || (id !in s.settling && id !in s.tasks && id in s.rows
                   && (s.rows[id].state.Queued? || s.rows[id].state.Cancelled?))
    ensures Inv(max, s.(queue := q))
  {
  }

  /** A row that waits nowhere can be enqueued. */
  lemma EnqueueKeepsInv(max: nat, s: State, id: string, key: Key)
    requires Inv(max, s) && !Lanes.Full(max, s.queue)
    requires id in s.rows && s.rows[id].state.Queued? && s.rows[id].key == key
    requires id !in s.settling && id !in s.tasks && id !in Lanes.Ids(s.queue)
    ensures Inv(max, s.(queue := Lanes.Admit(max, s.queue, key.0, id), pending := s.pending[key := id]))
  {
    var q := Lanes.Admit(max, s.queue, key.0, id);
    AdmitOnce(max, s.queue, key.0, id);
    QueueChangeKeepsInv(max, s, q);
    PendingKeepsInv(max, s.(queue := q), id, key);
  }

  lemma PendingKeepsInv(max: nat, s: State, id: string, key: Key)
    requires Inv(max, s) && id in s.rows && s.rows[id].key == key && id !in s.tasks
    ensures Inv(max, s.(pending := s.pending[key := id]))
  {
  }

  lemma CreateKeepsInv(max: nat, s: State, now: nat, id: string, key: Key, base: string, head: string)
    requires Inv(max, s) && id !in s.rows
    ensures Inv(max, Create(max, s, now, id, key, base, head))
  {
    var row := Row(key, base, head, Queued, None, None);
    var made := s.(rows := s.rows[id := row], created := s.created + [id]);
    NewRowKeepsInv(max, s, id, row);
    if Lanes.Full(max, s.queue) {
      RowChangeKeepsInv(max, made, id, Written(row, Cancelled, now));
    } else {
      EnqueueKeepsInv(max, made, id, key);
    }
  }

  /** What a dispatch does to the set of waiting ids, which are all different. */
  lemma DispatchOnce(max: nat, q: Lanes.Queue)
    requires Once(max, q)
    ensures var (q', turn) := Lanes.Dispatch(q);
            && Once(max, q')
            && (forall id <- Lanes.Ids(q') :: id in Lanes.Ids(q))
            && (turn.Some? ==> turn.value.1 in Lanes.Ids(q) && turn.value.1 !in Lanes.Ids(q'))
            && (forall id <- Lanes.Ids(q) :: id in Lanes.Ids(q') || (turn.Some? && id == turn.value.1))
  {
    Lanes.DispatchKeepsValid(max, q);
    Lanes.DispatchRemovesId(max, q);
    var (q', turn) := Lanes.Dispatch(q);
    if turn.Some? {
      OneTaken(Lanes.Ids(q), Lanes.Ids(q'), turn.value.1);
    } else {
      assert Lanes.Ids(q') == Lanes.Ids(q);
    }
  }

  /** Taking one id from a collection of different ids. */
  lemma OneTaken(before: multiset<string>, after: multiset<string>, id: string)
    requires before == after + multiset{id} && forall other <- before :: before[other] == 1
    ensures id in before && id !in after
    ensures forall other <- after :: other in before && after[other] == 1
    ensures forall other <- before :: other in after || other == id
  {
    assert before[id] == after[id] + 1;
    forall other <- after ensures other in before && after[other] == 1 {
      assert before[other] == after[other] + if other == id then 1 else 0;
    }
    forall other <- before ensures other in after || other == id {
      assert before[other] == after[other] + if other == id then 1 else 0;
    }
  }

  lemma QueueTakenKeepsInv(max: nat, s: State)
    requires Inv(max, s)
    ensures var (queue, turn) := Lanes.Dispatch(s.queue);
            Inv(max, s.(queue := queue))
            && (turn.Some? ==> turn.value.1 in s.rows && turn.value.1 !in s.settling && turn.value.1 !in s.tasks
                               && turn.value.1 !in Lanes.Ids(queue)
                               && (s.rows[turn.value.1].state.Queued? || s.rows[turn.value.1].state.Cancelled?))
  {
    DispatchOnce(max, s.queue);
    QueueChangeKeepsInv(max, s, Lanes.Dispatch(s.queue).0);
  }

  lemma SettleKeepsInv(max: nat, s: State, id: string)
    requires Inv(max, s) && id in s.rows && id !in s.tasks && id !in Lanes.Ids(s.queue)
    requires s.rows[id].state.Queued? || s.rows[id].state.Cancelled?
    ensures Inv(max, s.(settling := s.settling + {id}))
  {
  }

  lemma StartKeepsInv(max: nat, s: State, id: string)
    requires Inv(max, s) && id in s.rows && id !in s.settling && id !in Lanes.Ids(s.queue)
    requires s.rows[id].state.Queued? || s.rows[id].state.Cancelled?
    requires s.rows[id].key !in s.pending
    ensures Inv(max, Start(s, id))
  {
    StartIsInStep(s.rows[id]);
  }

  lemma TakenKeepsInv(max: nat, s: State, queue: Lanes.Queue, turn: Option<Lanes.Turn>)
    requires Inv(max, s.(queue := queue))
    requires turn.Some? ==> turn.value.1 in s.rows && turn.value.1 !in s.settling && turn.value.1 !in s.tasks
                            && turn.value.1 !in Lanes.Ids(queue)
                            && (s.rows[turn.value.1].state.Queued? || s.rows[turn.value.1].state.Cancelled?)
    ensures Inv(max, Taken(s, queue, turn))
  {
    if turn.Some? && !s.rows[turn.value.1].state.Cancelled? {
      if s.rows[turn.value.1].key in s.pending {
        SettleKeepsInv(max, s.(queue := queue), turn.value.1);
      } else {
        StartKeepsInv(max, s.(queue := queue), turn.value.1);
      }
    }
  }

  lemma TakeKeepsInv(max: nat, s: State)
    requires Inv(max, s)
    ensures Inv(max, Take(s))
  {
    QueueTakenKeepsInv(max, s);
    TakenKeepsInv(max, s, Lanes.Dispatch(s.queue).0, Lanes.Dispatch(s.queue).1);
  }

  lemma StartIsInStep(row: Row)
    requires row.state.Queued? || row.state.Cancelled?
    ensures InStep(row, Task(row, 0, false))
  {
  }

  lemma WakeKeepsInv(max: nat, s: State, now: nat, id: string)
    requires Inv(max, s)
    ensures Inv(max, Apply(max, s, now, Wake(id)))
  {
    if id in s.settling {
      StartKeepsInv(max, s.(settling := s.settling - {id}, pending := s.pending - {s.rows[id].key}), id);
    }
  }

  /** A worker's step writes its own row and its own copy. */
  lemma TaskStepKeepsInv(max: nat, s: State, id: string, row: Row, task: Task)
    requires Inv(max, s) && id in s.tasks && InStep(row, task) && row.key == s.rows[id].key
    requires row.finished.Some? <==> Terminal(row.state)
    ensures Inv(max, s.(rows := s.rows[id := row], tasks := s.tasks[id := task]))
  {
    var t := s.(rows := s.rows[id := row], tasks := s.tasks[id := task]);
    assert RowsOk(t);
    TaskStepKeepsPlaced(max, s, id, row, task);
    TaskStepKeepsPending(s, id, row, task);
  }

  lemma TaskStepKeepsPlaced(max: nat, s: State, id: string, row: Row, task: Task)
    requires Placed(max, s) && id in s.tasks && InStep(row, task)
    ensures Placed(max, s.(rows := s.rows[id := row], tasks := s.tasks[id := task]))
  {
  }

  lemma TaskStepKeepsPending(s: State, id: string, row: Row, task: Task)
    requires PendingOk(s) && id in s.tasks && id in s.rows && row.key == s.rows[id].key
    ensures PendingOk(s.(rows := s.rows[id := row], tasks := s.tasks[id := task]))
  {
  }

  lemma AdvanceIsInStep(row: Row, task: Task, now: nat)
    requires InStep(row, task) && !task.cancelled && task.pc < FINISHED
    ensures var target := Target(task.pc);
            if CanTransition(task.row.state, target) then
              InStep(Written(row, target, now),
                     Task(if task.pc == ADJUDICATE then task.row else Written(row, target, now), task.pc + 1, false))
            else InStep(row, task.(pc := task.pc + 1))
  {
  }

  lemma AcceptedKeepsInv(max: nat, s: State, id: string, row: Row, copy: Row)
    requires Inv(max, s) && Working(s, id) && row.key == s.rows[id].key && (row.finished.Some? <==> Terminal(row.state))
    requires InStep(row, Task(copy, s.tasks[id].pc + 1, false))
    ensures Inv(max, s.(rows := s.rows[id := row], tasks := s.tasks[id := Task(copy, s.tasks[id].pc + 1, false)]))
  {
    TaskStepKeepsInv(max, s, id, row, Task(copy, s.tasks[id].pc + 1, false));
  }

  lemma RefusedKeepsInv(max: nat, s: State, id: string)
    requires Inv(max, s) && Working(s, id) && InStep(s.rows[id], s.tasks[id].(pc := s.tasks[id].pc + 1))
    ensures Inv(max, s.(tasks := s.tasks[id := s.tasks[id].(pc := s.tasks[id].pc + 1)]))
  {
    assert s.rows[id := s.rows[id]] == s.rows;
    TaskStepKeepsInv(max, s, id, s.rows[id], s.tasks[id].(pc := s.tasks[id].pc + 1));
  }

  lemma AdvanceKeepsInv(max: nat, s: State, now: nat, id: string)
    requires Inv(max, s)
    ensures Inv(max, Apply(max, s, now, Advance(id)))
  {
    if Working(s, id) {
      var task, row := s.tasks[id], s.rows[id];
      AdvanceIsInStep(row, task, now);
      if CanTransition(task.row.state, Target(task.pc)) {
        var row' := Written(row, Target(task.pc), now);
        var copy := if task.pc == ADJUDICATE then task.row else row';
        AcceptedKeepsInv(max, s, id, row', copy);
        assert AdvanceTask(s, now, id)
            == s.(rows := s.rows[id := row'], tasks := s.tasks[id := Task(copy, task.pc + 1, false)]);
      } else {
        RefusedKeepsInv(max, s, id);
      }
    }
  }

  lemma ForkPointKeepsInv(max: nat, s: State, now: nat, id: string, base: string)
    requires Inv(max, s)
    ensures Inv(max, Apply(max, s, now, ForkPoint(id, base)))
  {
    if Working(s, id) {
      var task, row := s.tasks[id], s.rows[id];
      if task.pc == 1 { TaskStepKeepsInv(max, s, id, row.(base := base), task.(row := task.row.(base := base))); }
    }
  }

  lemma SkipKeepsInv(max: nat, s: State, now: nat, id: string)
    requires Inv(max, s)
    ensures Inv(max, Apply(max, s, now, SkipAdjudication(id)))
  {
    if Working(s, id) {
      var task, row := s.tasks[id], s.rows[id];
      assert s.rows[id := row] == s.rows;
      if task.pc == ADJUDICATE { TaskStepKeepsInv(max, s, id, row, task.(pc := ADJUDICATE + 1)); }
    }
  }

  lemma CrashKeepsInv(max: nat, s: State, now: nat, id: string)
    requires Inv(max, s)
    ensures Inv(max, Apply(max, s, now, Crash(id)))
  {
    if Working(s, id) {
      TaskStepKeepsInv(max, s, id, Written(s.rows[id], Failed, now), s.tasks[id].(pc := FINISHED));
    }
  }

  lemma TaskGoneKeepsInv(max: nat, s: State, id: string)
    requires Inv(max, s)
    ensures Inv(max, s.(tasks := s.tasks - {id}))
  {
  }

  lemma ReapKeepsInv(max: nat, s: State, now: nat, id: string)
    requires Inv(max, s)
    ensures Inv(max, Apply(max, s, now, Reap(id)))
  {
    if id in s.tasks && s.tasks[id].cancelled {
      var t := s.(rows := s.rows[id := Written(s.rows[id], Cancelled, now)], tasks := s.tasks[id := s.tasks[id]]);
      assert t.tasks == s.tasks;
      TaskStepKeepsInv(max, s, id, Written(s.rows[id], Cancelled, now), s.tasks[id]);
      TaskGoneKeepsInv(max, t, id);
    } else if id in s.tasks && s.tasks[id].pc >= FINISHED {
      TaskGoneKeepsInv(max, s, id);
    }
  }

  lemma CancelKeepsInv(max: nat, s: State, now: nat, id: string)
    requires Inv(max, s)
    ensures Inv(max, Apply(max, s, now, Cancel(id)))
  {
    if id in s.tasks {
      var task := s.tasks[id];
      assert s.tasks[id := task] == s.tasks;
      TaskStepKeepsInv(max, s, id, Written(s.rows[id], Cancelled, now),
                       if task.pc < FINISHED then task.(cancelled := true) else task);
    } else if id in s.rows {
      RowChangeKeepsInv(max, s, id, Written(s.rows[id], Cancelled, now));
    }
  }

  lemma {:induction false} RequeueKeepsInv(max: nat, s: State, now: nat, ids: seq<string>)
    requires Inv(max, s) && s.tasks == map[] && s.settling == {} && Lanes.Distinct(ids)
    requires forall id <- ids :: id !in Lanes.Ids(s.queue)
    ensures Inv(max, Requeue(max, s, now, ids))
    decreases |ids|
  {
    if ids != [] {
      var id := ids[0];
      if id in s.rows && !Terminal(s.rows[id].state) {
        var t := RequeueOne(max, s, now, id);
        RequeueOneKeepsInv(max, s, now, id);
        RequeueKeepsInv(max, t, now, ids[1..]);
      } else {
        RequeueKeepsInv(max, s, now, ids[1..]);
      }
    }
  }

  lemma RequeueOneKeepsInv(max: nat, s: State, now: nat, id: string)
    requires Inv(max, s) && s.tasks == map[] && s.settling == {}
    requires id in s.rows && !Terminal(s.rows[id].state) && id !in Lanes.Ids(s.queue)
    ensures var t := RequeueOne(max, s, now, id);
            && Inv(max, t) && t.tasks == map[] && t.settling == {}
            && forall other <- Lanes.Ids(t.queue) :: other == id || other in Lanes.Ids(s.queue)
  {
    var row := Written(s.rows[id], Queued, now);
    AdmitOnce(max, s.queue, row.key.0, id);
    RowChangeKeepsInv(max, s, id, row);
    QueueChangeKeepsInv(max, s.(rows := s.rows[id := row]), Lanes.Admit(max, s.queue, row.key.0, id));
  }

  lemma RestartKeepsInv(max: nat, s: State, now: nat)
    requires Inv(max, s)
    ensures Inv(max, Reboot(max, s, now))
  {
    RequeueKeepsInv(max, Rebooted(s), now, s.created);
  }

  lemma StepKeepsInv(max: nat, s: State, now: nat, e: Event)
    requires Inv(max, s)
    ensures Inv(max, Apply(max, s, now, e))
  {
    match e {
      case Submit(id, key, base, head, force) => SubmitKeepsInv(max, s, now, id, key, base, head, force);
      case TakeNext => TakeKeepsInv(max, s);
      case Wake(id) => WakeKeepsInv(max, s, now, id);
      case ForkPoint(id, base) => ForkPointKeepsInv(max, s, now, id, base);
      case Advance(id) => AdvanceKeepsInv(max, s, now, id);
      case SkipAdjudication(id) => SkipKeepsInv(max, s, now, id);
      case Crash(id) => CrashKeepsInv(max, s, now, id);
      case Reap(id) => ReapKeepsInv(max, s, now, id);
      case Cancel(id) => CancelKeepsInv(max, s, now, id);
      case Restart => RestartKeepsInv(max, s, now);
    }
  }
}
