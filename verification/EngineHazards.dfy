/**
 The conditions under which `EngineResults` speaks are exact, and none can be dropped:
 from the empty service, with a queue of one run, each fails within a few events.
 */
module EngineHazards {
  import opened Options
  import opened Engine
  import opened EngineResults
  import Lanes

  // ------------------------------------------------------- exactly the hazards --

  /** Without any further hazard, some pull request's newest run can miss the head submitted last. */
  ghost predicate CanLoseHead(max: nat, s: State) {
    exists events :: Safe(max, s, events) && !NewestHeads(Run(max, s, events))
  }

  lemma {:induction false} LongerThanAll(ids: set<string>) returns (id: string)
    ensures id != "" && forall x <- ids :: |x| < |id|
    decreases |ids|
  {
    id := "x";
    if ids != {} {
      var y :| y in ids;
      var longer := LongerThanAll(ids - {y});
      id := longer + y;
      forall x <- ids ensures |x| < |id| {
        if x != y { assert x in ids - {y}; }
      }
    }
  }

  lemma OneSubmission(max: nat, s: State, now: nat, e: Event)
    requires e.Submit? && !e.force && !NewestHeads(Apply(max, s, now, e))
    ensures CanLoseHead(max, s)
  {
    var events := [(now, e)];
    assert events[1..] == [] && Safe(max, Apply(max, s, now, e), []);
    assert Safe(max, s, events) && Run(max, s, events) == Apply(max, s, now, e);
  }

  lemma HazardLosesAHead(max: nat, s: State, now: nat, e: Event)
    requires Inv(max, s) && PendingIsLatest(s) && Hazard(max, s, e)
    ensures CanLoseHead(max, Apply(max, s, now, e))
  {
    var t := Apply(max, s, now, e);
    var id := LongerThanAll(t.rows.Keys);
    var key: Key, head: string;
    if e.Cancel? {
      key :| key in s.pending && s.pending[key] == e.id;
      head := s.rows[e.id].head + "x";
    } else {
      key, head := e.key, e.head + "x";
    }
    HazardsLoseTheNextHead(max, s, now, e, key, id, "base", head);
    OneSubmission(max, t, now, Submit(id, key, "base", head, false));
  }

  /** Exactly the hazards: while every newest run has its head, a step is a hazard if and only if
      a head can be lost after it without any further hazard. */
  lemma HazardsExactly(max: nat, s: State, now: nat, e: Event)
    requires Inv(max, s) && NewestHeads(s) && PendingIsLatest(s)
    ensures Hazard(max, s, e) <==> CanLoseHead(max, Apply(max, s, now, e))
  {
    if Hazard(max, s, e) {
      HazardLosesAHead(max, s, now, e);
    } else {
      var t := Apply(max, s, now, e);
      StepKeepsInv(max, s, now, e);
      StepKeepsNewest(max, s, now, e);
      forall events | Safe(max, t, events) ensures NewestHeads(Run(max, t, events)) {
        NewestHeadIsNeverLost(max, t, events);
      }
    }
  }

  // ------------------------------------------------------------- both are reached --

  const KEY: Key := ("repo", 1)
  const OTHER: Key := ("repo", 2)

  function First(): Event { Submit("a", KEY, "base", "one", false) }

  /** After one submission: one run, waiting and pending. */
  const ONE: State := State(
    map["a" := Row(KEY, "base", "one", Queued, None, None)], ["a"],
    Lanes.Queue(map["repo" := ["a"]], ["repo"], 1, true), map[KEY := "a"], {}, map[], map[KEY := "one"])

  lemma FirstIsAdmitted()
    ensures Create(1, INIT.(newest := map[KEY := "one"]), 0, "a", KEY, "base", "one") == ONE
  {
    assert [] + ["a"] == ["a"] && [] + ["repo"] == ["repo"];
  }

  lemma FirstMakesOne(now: nat)
    ensures Apply(1, INIT, now, First()) == ONE
    ensures Inv(1, ONE) && NewestHeads(ONE) && PendingIsLatest(ONE)
  {
    FirstIsAdmitted();
    EmptyServiceQualifies(1);
    StepKeepsInv(1, INIT, now, First());
    StepKeepsNewest(1, INIT, now, First());
  }

  lemma RunHead(max: nat, s: State, now: nat, e: Event, rest: seq<(nat, Event)>)
    ensures Run(max, s, [(now, e)] + rest) == Run(max, Apply(max, s, now, e), rest)
  {
    assert ([(now, e)] + rest)[1..] == rest;
  }

  lemma RunOfThree(max: nat, s: State, now: nat, a: Event, b: Event, c: Event)
    ensures Run(max, s, [(now, a), (now, b), (now, c)]) == Apply(max, Apply(max, Apply(max, s, now, a), now, b), now, c)
  {
    RunHead(max, s, now, a, [(now, b), (now, c)]);
    RunHead(max, Apply(max, s, now, a), now, b, [(now, c)]);
    RunHead(max, Apply(max, Apply(max, s, now, a), now, b), now, c, []);
    assert [(now, a)] + [(now, b), (now, c)] == [(now, a), (now, b), (now, c)];
    assert [(now, b)] + [(now, c)] == [(now, b), (now, c)];
    assert [(now, c)] + [] == [(now, c)];
  }

  const LAST: Event := Submit("c", KEY, "base", "three", false)

  /** Cancelling the pending run, or forcing a second one past a full queue. */
  predicate IsHazard(e: Event) {
    e == Cancel("a") || e == Submit("b", KEY, "base", "two", true)
  }

  lemma HazardsOfOne(now: nat, e: Event)
    requires IsHazard(e)
    ensures Hazard(1, ONE, e) && "c" !in Apply(1, ONE, now, e).rows
  {
    assert ONE.pending[KEY] == "a";
    assert Apply(1, ONE, now, e).rows.Keys <= {"a", "b"};
  }

  /** Either hazard is one event away from an empty service's first submission, and the
      submission after it leaves a pull request whose newest run has the wrong head. */
  lemma HazardsAreReached(now: nat, e: Event)
    requires IsHazard(e)
    ensures Safe(1, INIT, [(now, First())]) && Hazard(1, Run(1, INIT, [(now, First())]), e)
    ensures !NewestHeads(Run(1, INIT, [(now, First()), (now, e), (now, LAST)]))
  {
    FirstMakesOne(now);
    assert [(now, First())] + [] == [(now, First())];
    RunHead(1, INIT, now, First(), []);
    assert [(now, First())][1..] == [];
    HazardsOfOne(now, e);
    RunOfThree(1, INIT, now, First(), e, LAST);
    HazardsLoseTheNextHead(1, ONE, now, e, KEY, "c", "base", "three");
  }

  /** One run in its debounce sleep, a second one in the queue. */
  const TWO: State := State(
    map["a" := Row(KEY, "base", "one", Queued, None, None),
        "b" := Row(OTHER, "base", "one", Queued, None, None)], ["a", "b"],
    Lanes.Queue(map["repo" := ["b"]], ["repo"], 1, true), map[KEY := "a", OTHER := "b"], {"a"}, map[],
    map[KEY := "one", OTHER := "one"])

  lemma DispatchOfOne()
    ensures Lanes.Dispatch(ONE.queue) == (Lanes.Queue(map[], [], 0, true), Some(("repo", "a")))
  {
    var q := ONE.queue;
    assert Lanes.Lane(q, "repo") == ["a"] && q.lanes["repo"][1..] == [];
    assert q.lanes - {"repo"} == map[] && q.order[1..] + [] == [];
  }

  function Second(): Event { Submit("b", OTHER, "base", "one", false) }

  const ASLEEP: State := ONE.(queue := Lanes.Queue(map[], [], 0, true), settling := {"a"})

  lemma TakenAsleep(now: nat)
    ensures Apply(1, ONE, now, TakeNext) == ASLEEP
  {
    DispatchOfOne();
  }

  lemma SecondMakesTwo(now: nat)
    ensures Apply(1, ASLEEP, now, Second()) == TWO
  {
    assert Latest(ASLEEP.rows, ASLEEP.created, OTHER) == None by {
      assert ASLEEP.created[..0] == [];
    }
    assert [] + ["b"] == ["b"] && [] + ["repo"] == ["repo"] && ["a"] + ["b"] == ["a", "b"];
  }

  lemma TwoIsHoused(now: nat)
    ensures Inv(1, TWO) && Housed(TWO)
  {
    FirstMakesOne(now);
    EmptyServiceQualifies(1);
    StepKeepsHoused(1, INIT, now, First());
    TakenAsleep(now);
    StepKeepsInv(1, ONE, now, TakeNext);
    StepKeepsHoused(1, ONE, now, TakeNext);
    SecondMakesTwo(now);
    StepKeepsInv(1, ASLEEP, now, Second());
    StepKeepsHoused(1, ASLEEP, now, Second());
  }

  lemma TwoUnfinished()
    ensures |Unfinished(TWO.rows, TWO.created)| == 2
  {
    assert TWO.created[1..] == ["b"] && ["b"][1..] == [];
    assert Unfinished(TWO.rows, ["b"]) == ["b"];
  }

  lemma TooManyForBoot(s: State, now: nat)
    requires Inv(1, s) && |Unfinished(s.rows, s.created)| == 2
    ensures !Housed(Apply(1, s, now, Restart))
  {
    RestartHousesExactlyWhen(1, s, now);
  }

  lemma TwoIsReached(now: nat)
    ensures Run(1, INIT, [(now, First()), (now, TakeNext), (now, Second())]) == TWO
  {
    RunOfThree(1, INIT, now, First(), TakeNext, Second());
    FirstMakesOne(now);
    TakenAsleep(now);
    SecondMakesTwo(now);
  }

  /** A queue of one run takes a second one in while the first sleeps; a restart then
      leaves one of them without a place. */
  lemma RestartCanForget(now: nat) returns (s: State)
    ensures s == Run(1, INIT, [(now, First()), (now, TakeNext), (now, Second())])
    ensures Inv(1, s) && Housed(s) && !Housed(Apply(1, s, now, Restart))
  {
    s := TWO;
    TwoIsReached(now);
    TwoIsHoused(now);
    TwoUnfinished();
    TooManyForBoot(s, now);
  }
}
