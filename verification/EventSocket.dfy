/**
 The event bus and the two ends of its socket as the objects they are: the log with its
 subscribers, the server's subscription and coroutine, and the page's client. Each method
 is one piece between two awaits, or one callback, and is proved to be a step of
 `EventStream`.
 */
module EventSocket {
  import opened EventStream
  import opened Options
  import EventLog

  class Socket {
    const config: Config
    var stage: Stage
    var delivered: nat
    var queue: seq<Event>
    var dropped: nat
    var wire: seq<Frame>

    constructor (config: Config, cursor: nat)
      ensures this.config == config && View() == Conn(Reading, cursor, [], 0, [])
    {
      this.config, stage, delivered, queue, dropped, wire := config, Reading, cursor, [], 0, [];
    }

    ghost function View(): Conn
      reads this
    {
      Conn(stage, delivered, queue, dropped, wire)
    }

    /** `Subscription.offer`: never waits, and counts what does not fit. */
    method Offer(e: Event)
      modifies this`queue, this`dropped
      ensures View() == OfferTo(config, old(View()), e)
    {
      if |queue| < config.capacity {
        queue := queue + [e];
      } else {
        dropped := dropped + 1;
      }
    }

    /** One round of the replay loop, up to the await of its send. */
    method Replay(log: seq<Event>)
      requires stage == Reading
      modifies this`stage, this`wire
      ensures View() == ReadChunk(config, old(View()), log)
    {
      var batch := Since(config, log, delivered, config.chunk);
      if batch == [] {
        GoLive();
      } else {
        wire := wire + [Batch(batch)];
        stage := SendingBatch(batch);
      }
    }

    method GoLive()
      modifies this`stage, this`wire
      ensures stage == SendingMark && wire == old(wire) + [LiveMark(delivered)]
    {
      wire := wire + [LiveMark(delivered)];
      stage := SendingMark;
    }

    /** The coroutine resumes after a send. */
    method Resume()
      requires stage.SendingBatch? ==> stage.batch != []
      modifies this
      ensures View() == AfterSend(config, old(View()))
    {
      match stage {
        case SendingBatch(batch) =>
          delivered := batch[|batch| - 1].number;
          if |batch| < config.chunk {
            GoLive();
          } else {
            stage := Reading;
          }
        case SendingMark =>
          stage := Idle;
        case SendingOne =>
          if dropped > 0 {
            wire := wire + [DroppedMark(delivered)];
            stage := SendingDrop;
          } else {
            stage := Idle;
          }
        case SendingDrop =>
          dropped := 0;
          stage := Idle;
        case _ =>
      }
    }

    /** The live loop takes an event; a row that the replay has already sent is skipped. */
    method Deliver()
      requires stage == Idle && queue != []
      modifies this
      ensures View() == TakeNext(old(View()))
    {
      var e := queue[0];
      queue := queue[1..];
      if e.number > 0 && e.number <= delivered {
        return;
      }
      if e.number > 0 {
        delivered := e.number;
      }
      wire := wire + [One(e)];
      stage := SendingOne;
    }
  }

  /** What fanning out an event on the loop does to one subscription. */
  function Fanned(c: Config, k: Conn, e: Event): Conn {
    if Wants(c, e) then OfferTo(c, k, e) else k
  }

  /** An offer scheduled on the loop. */
  datatype Hop = Hop(socket: Socket, event: Event)

  /** The offers that fanning out an event on another thread schedules, one for each target. */
  function HopsTo(subscribers: seq<Socket>, e: Event): seq<Hop> {
    if subscribers == [] then []
    else
      var last := subscribers[|subscribers| - 1];
      HopsTo(subscribers[..|subscribers| - 1], e) + if Wants(last.config, e) then [Hop(last, e)] else []
  }

  /** The scheduled offers to one subscription: the `hops` of its event stream. */
  ghost function HopsOf(hops: seq<Hop>, socket: Socket): seq<Event> {
    if hops == [] then []
    else
      var last := hops[|hops| - 1];
      HopsOf(hops[..|hops| - 1], socket) + if last.socket == socket then [last.event] else []
  }

  ghost predicate Distinct(subscribers: seq<Socket>) {
    forall i, j :: 0 <= i < j < |subscribers| ==> subscribers[i] != subscribers[j]
  }

  lemma {:induction false} HopsAppend(a: seq<Hop>, b: seq<Hop>, socket: Socket)
    ensures HopsOf(a + b, socket) == HopsOf(a, socket) + HopsOf(b, socket)
  {
    if b == [] {
      assert a + b == a;
    } else {
      HopsAppend(a, b[..|b| - 1], socket);
      assert (a + b)[..|a + b| - 1] == a + b[..|b| - 1];
    }
  }

  /** Each subscription that wants the event gets one offer, and no other gets any. */
  lemma {:induction false} OneHopEach(subscribers: seq<Socket>, e: Event, socket: Socket)
    requires Distinct(subscribers)
    ensures HopsOf(HopsTo(subscribers, e), socket)
         == if socket in subscribers && Wants(socket.config, e) then [e] else []
  {
    if subscribers != [] {
      var front, last := subscribers[..|subscribers| - 1], subscribers[|subscribers| - 1];
      OneHopEach(front, e, socket);
      assert subscribers == front + [last];
      if Wants(last.config, e) {
        HopsAppend(HopsTo(front, e), [Hop(last, e)], socket);
        OneHop(last, e, socket);
        assert HopsOf(HopsTo(subscribers, e), socket)
            == HopsOf(HopsTo(front, e), socket) + HopsOf([Hop(last, e)], socket);
        if socket == last {
          assert socket !in front;
        }
      } else {
        assert HopsTo(subscribers, e) == HopsTo(front, e);
      }
    }
  }

  lemma OneHop(target: Socket, e: Event, socket: Socket)
    ensures HopsOf([Hop(target, e)], socket) == if target == socket then [e] else []
  {
    assert [Hop(target, e)][..0] == [];
  }

  /** The log, the subscriptions, and the offers other threads have scheduled on the loop. */
  class EventBus {
    var rows: seq<Event>
    var subscribers: seq<Socket>
    var hops: seq<Hop>

    constructor ()
      ensures Valid() && rows == [] && subscribers == [] && hops == []
    {
      rows, subscribers, hops := [], [], [];
    }

    ghost predicate Valid()
      reads this
    {
      Increasing(rows) && Distinct(subscribers)
    }

    method Subscribe(socket: Socket)
      requires Valid() && socket !in subscribers
      modifies this`subscribers
      ensures Valid() && subscribers == old(subscribers) + [socket]
    {
      subscribers := subscribers + [socket];
    }

    /** Write a row, then hand it to every subscriber that wants it: at once on the loop
        (`onLoop`, or no loop is bound), by a scheduled offer from any other thread. */
    method Emit(run: Option<string>, repo: Option<string>, onLoop: bool) returns (number: nat)
      requires Valid()
      modifies this`rows, this`hops, subscribers
      ensures Valid() && number == old(LastSeq(rows)) + 1
      ensures rows == old(rows) + [Event(number, run, repo)]
      ensures onLoop ==> hops == old(hops)
      ensures onLoop ==> forall s <- subscribers ::
                s.View() == if (s.config.run.Some? ==> run == s.config.run)
                               && (s.config.repo.Some? ==> repo == s.config.repo)
                            then OfferTo(s.config, old(s.View()), Event(number, run, repo)) else old(s.View())
      ensures !onLoop ==> forall s <- subscribers :: s.View() == old(s.View())
      ensures !onLoop ==> forall s <- subscribers ::
                HopsOf(hops, s)
                == HopsOf(old(hops), s)
                   + if (s.config.run.Some? ==> run == s.config.run) && (s.config.repo.Some? ==> repo == s.config.repo)
                     then [Event(number, run, repo)] else []
    {
      number := LastSeq(rows) + 1;
      EventLog.LongerIncreasing(rows, Event(number, run, repo));
      rows := rows + [Event(number, run, repo)];
      FanOutTo(Event(number, run, repo), onLoop);
    }

    /** A record that is not in the log and has no number. */
    method Publish(run: Option<string>, repo: Option<string>, onLoop: bool)
      requires Valid()
      modifies this`hops, subscribers
      ensures Valid()
      ensures onLoop ==> hops == old(hops)
      ensures onLoop ==> forall s <- subscribers ::
                s.View() == if (s.config.run.Some? ==> run == s.config.run)
                               && (s.config.repo.Some? ==> repo == s.config.repo)
                            then OfferTo(s.config, old(s.View()), Event(0, run, repo)) else old(s.View())
      ensures !onLoop ==> forall s <- subscribers :: s.View() == old(s.View())
      ensures !onLoop ==> forall s <- subscribers ::
                HopsOf(hops, s)
                == HopsOf(old(hops), s)
                   + if (s.config.run.Some? ==> run == s.config.run) && (s.config.repo.Some? ==> repo == s.config.repo)
                     then [Event(0, run, repo)] else []
    {
      FanOutTo(Event(0, run, repo), onLoop);
    }

    /** `_fan_out` */
    method FanOutTo(e: Event, onLoop: bool)
      requires Valid()
      modifies this`hops, subscribers
      ensures Valid()
      ensures onLoop ==> hops == old(hops)
      ensures onLoop ==> forall s <- subscribers ::
                s.View() == if (s.config.run.Some? ==> e.run == s.config.run)
                               && (s.config.repo.Some? ==> e.repo == s.config.repo)
                            then OfferTo(s.config, old(s.View()), e) else old(s.View())
      ensures !onLoop ==> forall s <- subscribers :: s.View() == old(s.View())
      ensures !onLoop ==> forall s <- subscribers ::
                HopsOf(hops, s)
                == HopsOf(old(hops), s)
                   + if (s.config.run.Some? ==> e.run == s.config.run)
                        && (s.config.repo.Some? ==> e.repo == s.config.repo)
                     then [e] else []
    {
      if onLoop {
        OfferToAll(e);
      } else {
        ScheduleForAll(e);
        forall s <- subscribers
          ensures Wanted(s.config, [e])
               == if (s.config.run.Some? ==> e.run == s.config.run) && (s.config.repo.Some? ==> e.repo == s.config.repo)
                  then [e] else []
        {
          EventLog.WantedOne(s.config, e);
        }
      }
    }

    method OfferToAll(e: Event)
      requires Valid()
      modifies subscribers
      ensures Valid()
      ensures forall s <- subscribers :: s.View() == Fanned(s.config, old(s.View()), e)
    {
      for i := 0 to |subscribers|
        invariant Valid()
        invariant forall k :: 0 <= k < i ==>
                  subscribers[k].View() == Fanned(subscribers[k].config, old(subscribers[k].View()), e)
        invariant forall k :: i <= k < |subscribers| ==> subscribers[k].View() == old(subscribers[k].View())
      {
        if Wants(subscribers[i].config, e) {
          subscribers[i].Offer(e);
        }
      }
    }

    /** `call_soon_threadsafe(subscription.offer, event)`, target by target. */
    method ScheduleForAll(e: Event)
      requires Valid()
      modifies this`hops
      ensures Valid()
      ensures forall s <- subscribers :: HopsOf(hops, s) == HopsOf(old(hops), s) + Wanted(s.config, [e])
    {
      for i := 0 to |subscribers|
        invariant hops == old(hops) + HopsTo(subscribers[..i], e)
      {
        assert subscribers[..i + 1][..i] == subscribers[..i];
        if Wants(subscribers[i].config, e) {
          hops := hops + [Hop(subscribers[i], e)];
        }
      }
      assert subscribers[..|subscribers|] == subscribers;
      forall s <- subscribers ensures HopsOf(hops, s) == HopsOf(old(hops), s) + Wanted(s.config, [e]) {
        HopsAppend(old(hops), HopsTo(subscribers, e), s);
        OneHopEach(subscribers, e, s);
        EventLog.WantedOne(s.config, e);
      }
    }

    /** The loop runs the offer scheduled first. */
    method RunHop()
      requires Valid() && hops != []
      modifies this`hops, hops[0].socket
      ensures Valid() && hops == old(hops)[1..]
      ensures var hop := old(hops)[0];
              hop.socket.View() == OfferTo(hop.socket.config, old(hops[0].socket.View()), hop.event)
    {
      var hop := hops[0];
      hops := hops[1..];
      hop.socket.Offer(hop.event);
    }
  }

  class Page {
    var cursor: nat
    var applied: seq<Event>
    var open: bool

    constructor ()
      ensures View() == Client(0, [], false)
    {
      cursor, applied, open := 0, [], false;
    }

    ghost function View(): Client
      reads this
    {
      Client(cursor, applied, open)
    }

    /** `socket.onmessage` */
    method OnMessage(f: Frame)
      modifies this
      ensures View() == OnFrame(old(View()), f)
    {
      if !open {
        return;
      }
      match f {
        case LiveMark(m) =>
          if cursor < m { cursor := m; }
        case DroppedMark(_) =>
          open := false;
        case Batch(events) =>
          HandleAll(events);
        case One(e) =>
          assert [e][..0] == [];
          HandleAll([e]);
      }
    }

    method HandleAll(events: seq<Event>)
      modifies this`cursor, this`applied
      ensures View() == ApplyEvents(old(View()), events)
    {
      for i := 0 to |events|
        invariant View() == ApplyEvents(old(View()), events[..i])
      {
        assert events[..i + 1][..i] == events[..i];
        var e := events[i];
        if cursor < e.number { cursor := e.number; }
        if e.number > 0 { applied := applied + [e]; }
      }
      assert events[..|events|] == events;
    }
  }
}
