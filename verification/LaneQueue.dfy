/**
 The scheduler's queue as the object it is. `Lanes` is its specification.
 */
module LaneQueue {
  import opened Options
  import opened Lanes

  class LaneQueue {
    const maxDepth: nat
    var lanes: map<string, seq<string>>
    var order: seq<string>
    var depth: int
    var waiting: bool
    var rejected: nat

    constructor (maxDepth: nat)
      ensures this.maxDepth == maxDepth && View() == EMPTY && rejected == 0
    {
      this.maxDepth, lanes, order, depth, waiting, rejected := maxDepth, map[], [], 0, false, 0;
    }

    ghost function View(): Queue
      reads this
    {
      Queue(lanes, order, depth, waiting)
    }

    /** A full queue refuses the run and counts the refusal. */
    method Enqueue(repo: string, id: string) returns (ok: bool)
      modifies this
      ensures ok == !Full(maxDepth, old(View()))
      ensures View() == Admit(maxDepth, old(View()), repo, id)
      ensures rejected == old(rejected) + if ok then 0 else 1
    {
      if depth >= maxDepth {
        rejected := rejected + 1;
        return false;
      }
      if repo !in lanes {
        lanes := lanes[repo := []];
      }
      if lanes[repo] == [] {
        order := order + [repo];
      }
      lanes := lanes[repo := lanes[repo] + [id]];
      depth := depth + 1;
      waiting := true;
      return true;
    }

    /** One turn of the rotation. Without one, the flag is cleared and the caller has to wait. */
    method Next() returns (turn: Option<Turn>)
      modifies this
      ensures (View(), turn) == Dispatch(old(View()))
      ensures rejected == old(rejected)
    {
      while order != []
        invariant Dispatch(View()) == Dispatch(old(View())) && rejected == old(rejected)
        decreases |order|
      {
        var repo := order[0];
        if repo !in lanes || lanes[repo] == [] {
          order := order[1..];
          continue;
        }
        ghost var before := View();
        var id := lanes[repo][0];
        lanes := lanes[repo := lanes[repo][1..]];
        depth := depth - 1;
        order := order[1..] + [repo];
        if lanes[repo] == [] {
          lanes := lanes - {repo};
          order := order[..|order| - 1];
          assert lanes == before.lanes - {repo} && order == before.order[1..] + [];
        }
        assert View() == Dispatch(before).0;
        return Some((repo, id));
      }
      waiting := false;
      return None;
    }
  }
}
