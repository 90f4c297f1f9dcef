/**
 How a hold ends: only through its owner, and never later than the owner wants.
 */
module SpendHolds {
  import opened Options
  import opened SpendProtocol

  /** A hold goes away in exactly one way: its owner releases it, after its row is in or the
      provider has raised, while no `reserve` is inside the lock. */
  lemma OnlyTheOwnerEndsAHold(b: Budget, s: State, e: Event, id: nat)
    requires s.held.Keys == s.phase.Keys && id in s.held
    ensures id !in Apply(b, s, e).held
       <==> e == Release(id) && s.reserving.None? && (s.phase[id].Recorded? || s.phase[id].Failed?)
  {
  }

  /** What the owner of a hold still has to do; `cost` is what the provider will charge, None if it raises. */
  function Rest(id: nat, phase: Phase, cost: Option<real>): seq<Event> {
    match phase
    case Calling => if cost.Some? then [Return(id, cost.value), Insert(id), Release(id)] else [Raise(id), Release(id)]
    case Stamped(_, _) => [Insert(id), Release(id)]
    case _ => [Release(id)]
  }

  /** The row that is then inserted, if there is one to come. */
  function RowToCome(s: State, id: nat, cost: Option<real>): seq<Row>
    requires id in s.held && id in s.phase
  {
    match s.phase[id]
    case Calling => if cost.Some? then [Row(s.now, s.held[id].run, s.held[id].repo, cost.value)] else []
    case Stamped(ts, usd) => [Row(ts, s.held[id].run, s.held[id].repo, usd)]
    case _ => []
  }

  lemma RunTwo(b: Budget, s: State, e: Event, f: Event)
    ensures Run(b, s, [e, f]) == Apply(b, Apply(b, s, e), f)
    ensures Honest(b, s, [e, f]) <==> WithinReservation(s, e) && WithinReservation(Apply(b, s, e), f)
  {
    var t := Apply(b, s, e);
    assert [e, f][0] == e && [e, f][1..] == [f];
    assert [f][0] == f && [f][1..] == [];
    assert Run(b, t, [f]) == Run(b, Apply(b, t, f), []);
    assert Honest(b, t, [f]) <==> WithinReservation(t, f);
  }

  lemma RunThree(b: Budget, s: State, e: Event, f: Event, g: Event)
    ensures Run(b, s, [e, f, g]) == Apply(b, Apply(b, Apply(b, s, e), f), g)
    ensures Honest(b, s, [e, f, g])
       <==> && WithinReservation(s, e) && WithinReservation(Apply(b, s, e), f)
            && WithinReservation(Apply(b, Apply(b, s, e), f), g)
  {
    RunTwo(b, Apply(b, s, e), f, g);
    assert [e, f, g][1..] == [f, g];
  }

  /** Whenever no `reserve` is inside the lock, the owner of any hold can go on alone to the end:
      the hold is gone, its row is in if there is one, and nothing else has changed. */
  lemma EveryHoldCanEnd(b: Budget, s: State, id: nat, cost: Option<real>)
    requires Shape(s) && s.reserving.None? && id in s.held
    requires cost.Some? ==> 0.0 <= cost.value <= s.held[id].usd
    ensures Honest(b, s, Rest(id, s.phase[id], cost))
    ensures Run(b, s, Rest(id, s.phase[id], cost))
         == s.(rows := s.rows + RowToCome(s, id, cost), held := s.held - {id}, phase := s.phase - {id})
  {
    match s.phase[id] {
      case Calling =>
        if cost.Some? {
          RunThree(b, s, Return(id, cost.value), Insert(id), Release(id));
          assert Apply(b, Apply(b, s, Return(id, cost.value)), Insert(id)).phase == s.phase[id := Recorded];
          assert s.phase[id := Recorded] - {id} == s.phase - {id};
        } else {
          RunTwo(b, s, Raise(id), Release(id));
          assert s.phase[id := Failed] - {id} == s.phase - {id};
          assert s.rows + [] == s.rows;
        }
      case Stamped(_, _) =>
        RunTwo(b, s, Insert(id), Release(id));
        assert s.phase[id := Recorded] - {id} == s.phase - {id};
      case _ =>
        assert [Release(id)][1..] == [];
        assert s.rows + [] == s.rows;
    }
  }

  lemma {:induction false} HonestAppend(b: Budget, s: State, first: seq<Event>, second: seq<Event>)
    requires Honest(b, s, first) && Honest(b, Run(b, s, first), second)
    ensures Honest(b, s, first + second) && Run(b, s, first + second) == Run(b, Run(b, s, first), second)
    decreases |first|
  {
    if first == [] {
      assert first + second == second;
    } else {
      assert (first + second)[0] == first[0] && (first + second)[1..] == first[1..] + second;
      HonestAppend(b, Apply(b, s, first[0]), first[1..], second);
    }
  }

  lemma EndingKeepsShape(s: State, id: nat, cost: Option<real>)
    requires Shape(s) && id in s.held && (cost.Some? ==> 0.0 <= cost.value)
    ensures Shape(s.(rows := s.rows + RowToCome(s, id, cost), held := s.held - {id}, phase := s.phase - {id}))
  {
  }

  /** So every state without a `reserve` inside the lock has a continuation after which
      nothing is held, whatever the providers do. */
  lemma {:induction false} EveryHoldEnds(b: Budget, s: State) returns (events: seq<Event>)
    requires Shape(s) && s.reserving.None?
    ensures Honest(b, s, events) && Run(b, s, events).held == map[] && s.rows <= Run(b, s, events).rows
    decreases |s.held|
  {
    if s.held == map[] {
      events := [];
    } else {
      var id :| id in s.held;
      var t := s.(rows := s.rows + RowToCome(s, id, None), held := s.held - {id}, phase := s.phase - {id});
      EveryHoldCanEnd(b, s, id, None);
      EndingKeepsShape(s, id, None);
      assert s.held.Keys == t.held.Keys + {id};
      var rest := EveryHoldEnds(b, t);
      HonestAppend(b, s, Rest(id, s.phase[id], None), rest);
      events := Rest(id, s.phase[id], None) + rest;
    }
  }
}
