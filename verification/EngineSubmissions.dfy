/**
 What a submission does: when there is nothing to do, when the pending run moves, and what
 becomes of a new run.
 */
module EngineSubmissions {
  import opened Engine
  import opened EngineResults
  import opened Options
  import Lanes

  /** The latest run is the newest one of the pull request, if it has any. */
  lemma {:induction false} LatestIsNewest(rows: map<string, Row>, created: seq<string>, key: Key)
    requires forall id <- created :: id in rows
    ensures Latest(rows, created, key).None? <==> forall id <- created :: rows[id].key != key
    ensures Lanes.Distinct(created) ==>
              forall i :: 0 <= i < |created| && Latest(rows, created, key) == Some(created[i]) ==>
                rows[created[i]].key == key && forall j :: i < j < |created| ==> rows[created[j]].key != key
  {
    if created != [] {
      var front, last := created[..|created| - 1], created[|created| - 1];
      assert created == front + [last];
      LatestIsNewest(rows, front, key);
      if rows[last].key != key {
        forall i | 0 <= i < |created| && Latest(rows, created, key) == Some(created[i]) && Lanes.Distinct(created)
          ensures rows[created[i]].key == key && forall j :: i < j < |created| ==> rows[created[j]].key != key
        {
          LatestIsCreated(rows, front, key);
          assert i < |created| - 1 ==> front[i] == created[i];
          forall j | i < j < |created| ensures rows[created[j]].key != key {
            assert j < |created| - 1 ==> front[j] == created[j];
          }
        }
      }
    }
  }

  /** This head has been verified, is being verified or is about to be. */
  ghost predicate Covered(s: State, key: Key, head: string) {
    exists id <- s.rows ::
      Latest(s.rows, s.created, key) == Some(id) && s.rows[id].head == head
      && s.rows[id].state != Failed && s.rows[id].state != Cancelled
  }

  /** An unforced submission of a head that is covered already changes no run and no queue. */
  lemma NothingToDo(max: nat, s: State, now: nat, e: Event)
    requires RowsOk(s) && e.Submit? && Unforced(s, e, e.key) && Covered(s, e.key, e.head)
    ensures Apply(max, s, now, e) == s.(newest := s.newest[e.key := e.head])
  {
  }

  /** One whose head is not covered moves the pending run to the new commits, if there is one. */
  lemma PendingRunMoves(max: nat, s: State, now: nat, e: Event)
    requires Inv(max, s) && PendingIsLatest(s) && e.Submit? && Unforced(s, e, e.key) && !Covered(s, e.key, e.head)
             && e.key in s.pending
    ensures var id := s.pending[e.key];
            && id in s.rows && s.rows[id].state == Queued
            && Apply(max, s, now, e)
               == s.(rows := s.rows[id := s.rows[id].(base := e.base, head := e.head)],
                     newest := s.newest[e.key := e.head])
  {
    assert QueuedLatest(s.rows, s.created, e.key, s.pending[e.key]);
  }

  /** A new run is wanted: the submission is forced, or its head is not covered and nothing is pending. */
  ghost predicate NewRun(s: State, e: Event) {
    && e.Submit? && e.base != "" && e.head != "" && e.id !in s.rows
    && (e.force || (!Covered(s, e.key, e.head) && e.key !in s.pending))
  }

  lemma NewRunIsCreated(max: nat, s: State, now: nat, e: Event)
    requires NewRun(s, e)
    ensures Apply(max, s, now, e)
            == Create(max, s.(newest := s.newest[e.key := e.head]), now, e.id, e.key, e.base, e.head)
  {
  }

  /** With room, the new run is queued at the end of its repository's lane, pending, and the
      latest run of its pull request, with the commits that were submitted. */
  lemma NewRunIsQueued(max: nat, s: State, now: nat, e: Event)
    requires RowsOk(s) && NewRun(s, e) && s.queue.depth < max
    ensures var t := Apply(max, s, now, e);
            && t.rows == s.rows[e.id := Row(e.key, e.base, e.head, Queued, None, None)]
            && t.created == s.created + [e.id] && t.pending == s.pending[e.key := e.id]
            && Latest(t.rows, t.created, e.key) == Some(e.id)
            && Lanes.Lane(t.queue, e.key.0) == Lanes.Lane(s.queue, e.key.0) + [e.id]
            && t.queue.depth == s.queue.depth + 1 && t.tasks == s.tasks && t.settling == s.settling
  {
    NewRunIsCreated(max, s, now, e);
    CreateEffect(max, s.(newest := s.newest[e.key := e.head]), now, e.id, e.key, e.base, e.head);
    LatestAfterCreation(s.rows, s.created, e.id, NewRow(max, s, now, e.key, e.base, e.head), e.key);
  }

  /** Without room it is on record as cancelled at once, and neither queued nor pending. */
  lemma NewRunIsRefused(max: nat, s: State, now: nat, e: Event)
    requires RowsOk(s) && NewRun(s, e) && s.queue.depth >= max
    ensures var t := Apply(max, s, now, e);
            && t.rows == s.rows[e.id := Row(e.key, e.base, e.head, Cancelled, Some(now), Some(now))]
            && t.created == s.created + [e.id] && t.pending == s.pending && t.queue == s.queue
            && Latest(t.rows, t.created, e.key) == Some(e.id) && t.tasks == s.tasks && t.settling == s.settling
  {
    NewRunIsCreated(max, s, now, e);
    CreateEffect(max, s.(newest := s.newest[e.key := e.head]), now, e.id, e.key, e.base, e.head);
    LatestAfterCreation(s.rows, s.created, e.id, NewRow(max, s, now, e.key, e.base, e.head), e.key);
  }

  /** An incomplete submission changes nothing. */
  lemma IncompleteIsIgnored(max: nat, s: State, now: nat, e: Event)
    requires e.Submit? && (e.base == "" || e.head == "")
    ensures Apply(max, s, now, e) == s
  {
  }

  lemma CoveredBy(s: State, key: Key, head: string, id: string)
    requires id in s.rows && Latest(s.rows, s.created, key) == Some(id) && s.rows[id].head == head
    requires s.rows[id].state != Failed && s.rows[id].state != Cancelled
    ensures Covered(s, key, head)
  {
  }

  /** After every complete unforced submission that finds room or a pending run, the head is covered;
      and a run is created exactly if it was not covered before and no run was pending. */
  lemma SubmissionCovers(max: nat, s: State, now: nat, e: Event)
    requires Inv(max, s) && PendingIsLatest(s) && e.Submit? && Unforced(s, e, e.key)
    requires s.queue.depth < max || e.key in s.pending
    ensures var t := Apply(max, s, now, e);
            && Covered(t, e.key, e.head)
            && (t.created == s.created <==> Covered(s, e.key, e.head) || e.key in s.pending)
  {
    if Covered(s, e.key, e.head) {
      CoveredStays(max, s, now, e);
    } else if e.key in s.pending {
      MovedRunCovers(max, s, now, e);
    } else {
      NewRunIsQueued(max, s, now, e);
      CoveredBy(Apply(max, s, now, e), e.key, e.head, e.id);
    }
  }

  lemma CoveredStays(max: nat, s: State, now: nat, e: Event)
    requires RowsOk(s) && e.Submit? && Unforced(s, e, e.key) && Covered(s, e.key, e.head)
    ensures var t := Apply(max, s, now, e); Covered(t, e.key, e.head) && t.created == s.created
  {
    NothingToDo(max, s, now, e);
    var id :| id in s.rows && Latest(s.rows, s.created, e.key) == Some(id) && s.rows[id].head == e.head
              && s.rows[id].state != Failed && s.rows[id].state != Cancelled;
    CoveredBy(Apply(max, s, now, e), e.key, e.head, id);
  }

  lemma MovedRunCovers(max: nat, s: State, now: nat, e: Event)
    requires Inv(max, s) && PendingIsLatest(s) && e.Submit? && Unforced(s, e, e.key)
    requires !Covered(s, e.key, e.head) && e.key in s.pending
    ensures var t := Apply(max, s, now, e); Covered(t, e.key, e.head) && t.created == s.created
  {
    var t := Apply(max, s, now, e);
    PendingRunMoves(max, s, now, e);
    assert QueuedLatest(s.rows, s.created, e.key, s.pending[e.key]);
    LatestStable(s.rows, t.rows, s.created, e.key);
    CoveredBy(t, e.key, e.head, s.pending[e.key]);
  }
}
