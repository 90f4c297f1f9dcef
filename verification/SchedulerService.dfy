/**
 The scheduler with the rows of its store and its workers as the object it is: each method
 is one stretch of code between two awaits and is proved to be a step of `Engine`.
 */
module SchedulerService {
  import opened Options
  import opened Engine
  import opened EngineResults
  import Lanes

  /** The requeueing of runs that were read beforehand. */
  function RequeueEach(max: nat, s: State, now: nat, ids: seq<string>): State
    requires forall id <- ids :: id in s.rows
    decreases |ids|
  {
    if ids == [] then s else RequeueEach(max, RequeueOne(max, s, now, ids[0]), now, ids[1..])
  }

  lemma UnfinishedFrom(rows: map<string, Row>, created: seq<string>, i: nat, ids: seq<string>)
    requires i < |created|
    ensures ids + Unfinished(rows, created[i..])
         == (if created[i] in rows && !Terminal(rows[created[i]].state) then ids + [created[i]] else ids)
            + Unfinished(rows, created[i + 1..])
  {
    var rest := Unfinished(rows, created[i + 1..]);
    assert created[i..][0] == created[i] && created[i..][1..] == created[i + 1..];
    assert ids + ([created[i]] + rest) == ids + [created[i]] + rest;
    assert [] + rest == rest;
  }

  /** Reading all unfinished runs first requeues the same ones as looking at each in turn. */
  lemma {:induction false} ReadingFirstIsTheSame(max: nat, s: State, now: nat, ids: seq<string>)
    ensures forall id <- Unfinished(s.rows, ids) :: id in s.rows
    ensures RequeueEach(max, s, now, Unfinished(s.rows, ids)) == Requeue(max, s, now, ids)
    decreases |ids|
  {
    if ids != [] {
      var rest := Unfinished(s.rows, ids[1..]);
      if ids[0] in s.rows && !Terminal(s.rows[ids[0]].state) {
        var t := RequeueOne(max, s, now, ids[0]);
        UnfinishedStable(s.rows, t.rows, ids[1..]);
        ReadingFirstIsTheSame(max, t, now, ids[1..]);
        assert Unfinished(s.rows, ids) == [ids[0]] + rest;
        assert ([ids[0]] + rest)[1..] == rest;
      } else {
        ReadingFirstIsTheSame(max, s, now, ids[1..]);
        assert Unfinished(s.rows, ids) == [] + rest == rest;
      }
    }
  }

  class Scheduler {
    const maxDepth: nat
    var rows: map<string, Row>
    var created: seq<string>
    var queue: Lanes.Queue
    var pending: map<Key, string>
    var settling: set<string>
    var tasks: map<string, Task>
    ghost var newest: map<Key, string>

    /** A scheduler at boot: of an earlier one only the store is left. */
    constructor (maxDepth: nat, rows: map<string, Row>, created: seq<string>, ghost newest: map<Key, string>)
      ensures this.maxDepth == maxDepth
      ensures View() == State(rows, created, Lanes.EMPTY, map[], {}, map[], newest)
    {
      this.maxDepth, this.rows, this.created, this.newest := maxDepth, rows, created, newest;
      queue, pending, settling, tasks := Lanes.EMPTY, map[], {}, map[];
    }

    ghost function View(): State
      reads this
    {
      State(rows, created, queue, pending, settling, tasks, newest)
    }

    /** `Store.set_run_state` */
    method SetRunState(id: string, state: RunState, now: nat)
      modifies this`rows
      ensures View() == SetState(old(View()), id, state, now)
    {
      if id in rows {
        rows := rows[id := Written(rows[id], state, now)];
      }
    }

    /** `Store.latest_run` */
    method LatestRun(key: Key) returns (latest: Option<string>)
      ensures latest == Latest(rows, created, key)
    {
      var i := |created|;
      assert created[..i] == created;
      while i > 0
        invariant 0 <= i <= |created|
        invariant Latest(rows, created, key) == Latest(rows, created[..i], key)
      {
        assert created[..i][..i - 1] == created[..i - 1];
        var id := created[i - 1];
        if id in rows && rows[id].key == key {
          return Some(id);
        }
        i := i - 1;
      }
      return None;
    }

    method Enqueue(repo: string, id: string) returns (ok: bool)
      modifies this`queue
      ensures ok == !Lanes.Full(maxDepth, old(queue)) && queue == Lanes.Admit(maxDepth, old(queue), repo, id)
    {
      ok := !Lanes.Full(maxDepth, queue);
      queue := Lanes.Admit(maxDepth, queue, repo, id);
    }

    /** `submit`; `id` is the identifier the run gets if one is created. Returns the run that
        will verify the head, if there is anything to do and room for it. */
    method Submit(id: string, key: Key, base: string, head: string, force: bool, now: nat) returns (run: Option<string>)
      requires id !in rows
      modifies this
      ensures View() == SubmitRun(maxDepth, old(View()), now, id, key, base, head, force)
      ensures run.Some? ==> key in pending && pending[key] == run.value
      ensures run.None? ==> pending == old(pending)
    {
      if base == "" || head == "" {
        return None;
      }
      newest := newest[key := head];
      if !force {
        var existing := LatestRun(key);
        if existing.Some? && existing.value in rows && rows[existing.value].head == head
           && !rows[existing.value].state.Failed? && !rows[existing.value].state.Cancelled? {
          return None;
        }
        if key in pending {
          var queued := pending[key];
          if queued in rows && rows[queued].state.Queued? {
            rows := rows[queued := rows[queued].(base := base, head := head)];
          }
          return Some(queued);
        }
      }
      rows, created := rows[id := Row(key, base, head, Queued, None, None)], created + [id];
      var admitted := Enqueue(key.0, id);
      if !admitted {
        SetRunState(id, Cancelled, now);
        return None;
      }
      pending := pending[key := id];
      return Some(id);
    }

    method RequeueRun(id: string, now: nat)
      requires id in rows
      modifies this`rows, this`queue
      ensures View() == RequeueOne(maxDepth, old(View()), now, id)
    {
      SetRunState(id, Queued, now);
      var admitted := Enqueue(rows[id].key.0, id);
    }

    /** `Store.unfinished_runs`, oldest first. */
    method UnfinishedRuns() returns (ids: seq<string>)
      ensures ids == Unfinished(rows, created)
    {
      ids := [];
      for i := 0 to |created|
        invariant Unfinished(rows, created) == ids + Unfinished(rows, created[i..])
      {
        UnfinishedFrom(rows, created, i, ids);
        if created[i] in rows && !Terminal(rows[created[i]].state) {
          ids := ids + [created[i]];
        }
      }
      assert created[|created|..] == [];
    }

    /** `recover`: every run left in flight goes back on the queue, if it is admitted. */
    method Recover(now: nat)
      modifies this`rows, this`queue
      ensures View() == Requeue(maxDepth, old(View()), now, created)
    {
      ghost var before := View();
      var stranded := UnfinishedRuns();
      ReadingFirstIsTheSame(maxDepth, before, now, created);
      for i := 0 to |stranded|
        invariant forall id <- stranded :: id in rows
        invariant View().created == before.created
        invariant RequeueEach(maxDepth, before, now, stranded) == RequeueEach(maxDepth, View(), now, stranded[i..])
      {
        assert stranded[i..][0] == stranded[i] && stranded[i..][1..] == stranded[i + 1..];
        RequeueRun(stranded[i], now);
      }
    }

    /** `cancel`, and whether a task was told. */
    method CancelRun(id: string, now: nat) returns (told: bool)
      modifies this`rows, this`tasks
      ensures View() == Apply(maxDepth, old(View()), now, Cancel(id))
      ensures told == (id in old(tasks))
    {
      SetRunState(id, Cancelled, now);
      told := id in tasks;
      if told && tasks[id].pc < FINISHED {
        tasks := tasks[id := tasks[id].(cancelled := true)];
      }
    }

    /** A consumer's turn up to its debounce sleep, or up to the start of a task. */
    method Consume()
      modifies this`queue, this`settling, this`tasks
      ensures View() == Take(old(View()))
    {
      var (rest, turn) := Lanes.Dispatch(queue);
      queue := rest;
      if turn.None? || turn.value.1 !in rows || rows[turn.value.1].state.Cancelled? {
        return;
      }
      var id := turn.value.1;
      if rows[id].key in pending {
        settling := settling + {id};
      } else {
        tasks := tasks[id := Task(rows[id], 0, false)];
      }
    }

    /** After the sleep the pending entry is dropped and the row read again. */
    method Settle(id: string)
      requires id in settling && id in rows
      modifies this`settling, this`pending, this`tasks
      ensures forall now :: View() == Apply(maxDepth, old(View()), now, Wake(id))
    {
      settling := settling - {id};
      pending := pending - {rows[id].key};
      tasks := tasks[id := Task(rows[id], 0, false)];
    }

    /** `RunWorker._advance` at the task's place in the pipeline. */
    method AdvanceRun(id: string, now: nat)
      requires Working(View(), id)
      modifies this`rows, this`tasks
      ensures View() == Apply(maxDepth, old(View()), now, Advance(id))
    {
      var task := tasks[id];
      if !CanTransition(task.row.state, Target(task.pc)) {
        tasks := tasks[id := task.(pc := task.pc + 1)];
        return;
      }
      SetRunState(id, Target(task.pc), now);
      tasks := tasks[id := Task(if task.pc == ADJUDICATE then task.row else rows[id], task.pc + 1, false)];
    }
  }
}
