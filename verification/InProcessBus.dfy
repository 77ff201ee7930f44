/** `InProcessAsyncEventBus` as an object whose methods are the pieces between awaits. */
module InProcessBus {
  import opened Options
  import opened EventBus
  import opened BusTheorems

  /** One round of `drain`'s polling: the loop's clock reading and what other tasks do at its awaits. */
  datatype Tick = Tick(now: int, duringYield: seq<Step>, duringSleep: seq<Step>)

  class InProcessAsyncEventBus {
    var subs: map<Option<nat>, seq<Handler>>
    var seen: set<nat>
    var queues: map<Correlation, seq<Message>>
    var workers: map<Correlation, Worker>
    var dispatching: int
    ghost var published: seq<Event>
    ghost var dispatched: seq<Delivery>

    constructor ()
      ensures State() == IDLE && Inv(State())
    {
      subs, seen, queues, workers, dispatching := map[], {}, map[], map[], 0;
      published, dispatched := [], [];
      new;
      IdleIsInv();
    }

    ghost function State(): Bus
      reads this
    {
      Bus(subs, seen, queues, workers, dispatching, published, dispatched)
    }

    method SubscribeHandler(kind: Option<nat>, handler: Handler)
      modifies this`subs
      ensures State() == Next(old(State()), Subscribe(kind, handler))
    {
      subs := subs[kind := (if kind in subs then subs[kind] else []) + [handler]];
    }

    /** False for an event id seen before; otherwise the event joins its correlation's queue. */
    method PublishEvent(e: Event) returns (accepted: bool)
      modifies this
      ensures accepted <==> e.id !in old(seen)
      ensures State() == Next(old(State()), Publish(e))
    {
      if e.id in seen {
        return false;
      }
      seen := seen + {e.id};
      if e.corr !in queues {
        queues, workers := queues[e.corr := []], workers[e.corr := Waiting];
      }
      queues := queues[e.corr := queues[e.corr] + [Deliver(e)]];
      published := published + [e];
      return true;
    }

    /** The worker takes the head of its queue and, for an event, starts dispatching it. */
    method TakeNext(c: Correlation)
      requires Enabled(State(), Dequeue(c))
      modifies this`queues, this`workers, this`dispatching
      ensures State() == Next(old(State()), Dequeue(c))
    {
      var message := queues[c][0];
      queues := queues[c := queues[c][1..]];
      if message.Stop? {
        workers := workers[c := Finished];
      } else {
        dispatching := dispatching + 1;
        var e := message.event;
        var handlers := (if Some(e.kind) in subs then subs[Some(e.kind)] else [])
                        + (if None in subs then subs[None] else []);
        workers := workers[c := Dispatching(e, handlers, [])];
      }
    }

    /**
     A handler ended. What it raised or timed out on is caught and the loop goes on to the next
     handler; what escapes runs the `finally` and ends the worker, whatever its queue still holds.
     */
    method NoteOutcome(c: Correlation, outcome: Outcome)
      requires Enabled(State(), HandlerDone(c, outcome))
      modifies this`workers, this`dispatching, this`dispatched
      ensures State() == Next(old(State()), HandlerDone(c, outcome))
    {
      var w := workers[c];
      if outcome.Escaped? {
        dispatched := dispatched + [Delivery(w.event, w.handlers, w.outcomes + [outcome])];
        workers, dispatching := workers[c := Dead], dispatching - 1;
      } else {
        workers := workers[c := w.(outcomes := w.outcomes + [outcome])];
      }
    }

    method EndDispatch(c: Correlation)
      requires Enabled(State(), DispatchDone(c))
      modifies this`workers, this`dispatching, this`dispatched
      ensures State() == Next(old(State()), DispatchDone(c))
    {
      ghost var w := workers[c];
      dispatched := dispatched + [Delivery(w.event, w.handlers, w.outcomes)];
      workers, dispatching := workers[c := Waiting], dispatching - 1;
    }

    method TakeStep(s: Step)
      requires Enabled(State(), s)
      modifies this
      ensures State() == Next(old(State()), s)
    {
      match s {
        case Subscribe(kind, handler) => SubscribeHandler(kind, handler);
        case Publish(e) => var _ := PublishEvent(e);
        case Dequeue(c) => TakeNext(c);
        case HandlerDone(c, outcome) => NoteOutcome(c, outcome);
        case DispatchDone(c) => EndDispatch(c);
      }
    }

    predicate CanTake(s: Step)
      reads this
      ensures CanTake(s) <==> Enabled(State(), s)
    {
      match s
      case Subscribe(_, _) => true
      case Publish(_) => true
      case Dequeue(c) => c in queues && c in workers && workers[c].Waiting? && queues[c] != []
      case HandlerDone(c, _) => c in workers && workers[c].Dispatching? && |workers[c].outcomes| < |workers[c].handlers|
      case DispatchDone(c) => c in workers && workers[c].Dispatching? && |workers[c].outcomes| >= |workers[c].handlers|
    }

    /** What other tasks do while this one is suspended. */
    method Interleave(steps: seq<Step>)
      modifies this
      ensures State() == RunSteps(old(State()), steps)
    {
      for i := 0 to |steps|
        invariant State() == RunSteps(old(State()), steps[..i])
      {
        assert steps[..i + 1][..i] == steps[..i];
        if CanTake(steps[i]) {
          TakeStep(steps[i]);
        }
      }
      assert steps[..|steps|] == steps;
    }

    predicate IsIdle()
      reads this
      ensures IsIdle() <==> LooksIdle(State())
    {
      (forall c :: c in queues ==> queues[c] == []) && dispatching == 0
    }

    /**
     Polls until the bus looks idle twice around a yield; a deadline is the failure. On success
     every event accepted by then has been dispatched to the handlers that were subscribed to it
     when its turn came, and each has been handed to all of them if and only if no handler let an
     exception escape. `before` stands for whatever schedule brought the bus here.
     */
    method Drain(ticks: seq<Tick>, deadline: int) returns (drained: bool, ghost ran: seq<Step>)
      requires Inv(State())
      modifies this
      ensures State() == RunSteps(old(State()), ran) && Inv(State())
      ensures drained ==> LooksIdle(State()) && AllDispatched(State())
      ensures drained ==> (AllDelivered(State()) <==> NoneDead(State()))
      ensures drained ==> forall before :: old(State()) == RunSteps(IDLE, before) ==>
        forall d :: d in dispatched ==> Addressed(before + ran, d.event, d.handlers)
    {
      ran, drained := [], false;
      var i := 0;
      while i < |ticks| && ticks[i].now < deadline
        invariant State() == RunSteps(old(State()), ran) && Inv(State())
      {
        if IsIdle() {
          EveryScheduleKeepsInv(State(), ticks[i].duringYield);
          RunStepsConcat(old(State()), ran, ticks[i].duringYield);
          Interleave(ticks[i].duringYield);
          ran := ran + ticks[i].duringYield;
          if IsIdle() {
            LookingIdleIsDispatched(State());
            WhateverCameBefore(old(State()), ran);
            drained := true;
            return;
          }
        }
        EveryScheduleKeepsInv(State(), ticks[i].duringSleep);
        RunStepsConcat(old(State()), ran, ticks[i].duringSleep);
        Interleave(ticks[i].duringSleep);
        ran := ran + ticks[i].duringSleep;
        i := i + 1;
      }
    }

    /** Queues a stop message behind everything, which after draining is behind nothing. */
    method PutStops()
      requires forall c :: c in queues ==> queues[c] == []
      modifies this`queues
      ensures queues == map c | c in old(queues) :: [Stop]
    {
      var left := queues.Keys;
      while left != {}
        invariant left <= queues.Keys == old(queues).Keys
        invariant forall c :: c in queues ==> queues[c] == if c in left then [] else [Stop]
      {
        var c :| c in left;
        queues := queues[c := queues[c] + [Stop]];
        left := left - {c};
      }
    }

    /** Awaits the worker tasks; a live one takes its stop message and ends, a dead one raises what killed it. */
    method AwaitWorkers() returns (awaited: bool)
      requires queues.Keys == workers.Keys
      requires forall c :: c in workers ==> (workers[c].Waiting? || workers[c].Dead?) && queues[c] == [Stop]
      modifies this`queues, this`workers, this`dispatching
      ensures workers.Keys == old(workers).Keys && dispatching == old(dispatching)
      ensures awaited <==> forall c :: c in old(workers) ==> old(workers)[c].Waiting?
      ensures awaited ==> forall c :: c in workers ==> workers[c].Finished?
    {
      var left := workers.Keys;
      while left != {}
        invariant left <= workers.Keys == old(workers).Keys == queues.Keys
        invariant forall c :: c in left ==> workers[c] == old(workers)[c] && queues[c] == [Stop]
        invariant forall c :: c in workers && c !in left ==> workers[c].Finished? && old(workers)[c].Waiting?
        invariant dispatching == old(dispatching)
      {
        var c :| c in left;
        if workers[c].Dead? {
          return false;
        }
        TakeNext(c);
        left := left - {c};
      }
      return true;
    }

    /**
     Drains, then stops the workers; no event is published meanwhile. A close that completes has
     delivered everything and ended every worker, and the ids stay known. After a successful
     drain it completes if and only if no worker is dead: awaiting a dead one raises.
     */
    method Close(ticks: seq<Tick>, deadline: int)
      returns (drained: bool, closed: bool, ghost quiet: Bus, ghost ended: map<Correlation, Worker>)
      requires Inv(State())
      modifies this
      ensures Inv(quiet) && (drained ==> LooksIdle(quiet))
      ensures !drained ==> !closed && State() == quiet
      ensures drained ==> (closed <==> NoneDead(quiet))
      ensures closed ==> Inv(State()) && AllDelivered(State())
      ensures closed ==> queues == map[] && workers == map[] && dispatching == 0
      ensures closed ==> ended.Keys == quiet.workers.Keys && forall c :: c in ended ==> ended[c].Finished?
      ensures closed ==> forall e :: e in published ==> e.id in seen
    {
      ghost var ran;
      ended := map[];
      drained, ran := Drain(ticks, deadline);
      quiet := State();
      if !drained {
        return drained, false, quiet, ended;
      }
      LookingIdleIsDispatched(quiet);
      PutStops();
      closed := AwaitWorkers();
      if !closed {
        return;
      }
      ended := workers;
      queues, workers := map[], map[];
      dispatching := 0;
      assert State() == quiet.(queues := map[], workers := map[]);
      ClearedIsInv(quiet);
    }
  }

  lemma WhateverCameBefore(b: Bus, ran: seq<Step>)
    ensures forall before :: b == RunSteps(IDLE, before) ==>
      forall d :: d in RunSteps(b, ran).dispatched ==> Addressed(before + ran, d.event, d.handlers)
  {
    forall before | b == RunSteps(IDLE, before)
      ensures forall d :: d in RunSteps(b, ran).dispatched ==> Addressed(before + ran, d.event, d.handlers)
    {
      RunStepsConcat(IDLE, before, ran);
      DispatchesAreAddressed(before + ran);
    }
  }

  lemma ClearedIsInv(b: Bus)
    requires Inv(b) && LooksIdle(b) && NoneDead(b)
    ensures Inv(b.(queues := map[], workers := map[])) && AllDelivered(b.(queues := map[], workers := map[]))
  {
    var b' := b.(queues := map[], workers := map[]);
    LookingIdleIsDispatched(b);
    assert Busy(b') == {};
    forall c ensures Conserved(b', c) {
      assert DispatchedOf(b.dispatched, c) == EventsOf(b.published, c);
    }
  }

  lemma {:induction false} RunStepsConcat(b: Bus, s: seq<Step>, t: seq<Step>)
    ensures RunSteps(b, s + t) == RunSteps(RunSteps(b, s), t)
    decreases |t|
  {
    if t == [] {
      assert s + t == s;
    } else {
      assert (s + t)[..|s + t| - 1] == s + t[..|t| - 1];
      RunStepsConcat(b, s, t[..|t| - 1]);
    }
  }
}
