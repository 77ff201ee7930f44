/**
 The in-process event bus as a transition system (joker/events/bus.py). A step is what runs
 between two awaits: taking an event from a queue and counting it as dispatching is one step.
 `published` and `dispatched` are the history of the run.
 */
module EventBus {
  import opened Options

  type Correlation = nat
  type Handler = nat

  datatype Event = Event(id: nat, kind: nat, corr: Correlation)

  /** How a handler ends. `Escaped` is what `except Exception` does not catch, a cancellation above all. */
  datatype Outcome = Completed | Raised | TimedOut | Escaped

  datatype Message = Deliver(event: Event) | Stop

  /** A worker between events, inside `_dispatch`, past its stop message, or ended by an escaped exception. */
  datatype Worker =
    | Waiting
    | Dispatching(event: Event, handlers: seq<Handler>, outcomes: seq<Outcome>)
    | Finished
    | Dead

  /** A dispatch that is over: the handlers it was to call and the outcomes of those it did call. */
  datatype Delivery = Delivery(event: Event, handlers: seq<Handler>, outcomes: seq<Outcome>) {
    predicate Whole() {
      |outcomes| == |handlers| && Escaped !in outcomes
    }

    predicate CutShort() {
      0 < |outcomes| <= |handlers| && outcomes[|outcomes| - 1].Escaped? && Escaped !in outcomes[..|outcomes| - 1]
    }
  }

  datatype Bus = Bus(
    subs: map<Option<nat>, seq<Handler>>,
    seen: set<nat>,
    queues: map<Correlation, seq<Message>>,
    workers: map<Correlation, Worker>,
    dispatching: int,
    published: seq<Event>,
    dispatched: seq<Delivery>)

  const IDLE := Bus(map[], {}, map[], map[], 0, [], [])

  datatype Step =
    | Subscribe(kind: Option<nat>, handler: Handler)
    | Publish(event: Event)
    | Dequeue(corr: Correlation)
    | HandlerDone(corr: Correlation, outcome: Outcome)
    | DispatchDone(corr: Correlation)

  function Subscribed(b: Bus, kind: Option<nat>): seq<Handler> {
    if kind in b.subs then b.subs[kind] else []
  }

  /** Handlers for the event's own kind, then those for every kind. */
  function HandlersFor(b: Bus, e: Event): seq<Handler> {
    Subscribed(b, Some(e.kind)) + Subscribed(b, None)
  }

  predicate Enabled(b: Bus, s: Step) {
    match s
    case Subscribe(_, _) => true
    case Publish(_) => true
    case Dequeue(c) => c in b.queues && c in b.workers && b.workers[c].Waiting? && b.queues[c] != []
    case HandlerDone(c, _) =>
      c in b.workers && b.workers[c].Dispatching? && |b.workers[c].outcomes| < |b.workers[c].handlers|
    case DispatchDone(c) =>
      c in b.workers && b.workers[c].Dispatching? && |b.workers[c].outcomes| >= |b.workers[c].handlers|
  }

  predicate IsWorkerStep(s: Step) {
    s.Dequeue? || s.HandlerDone? || s.DispatchDone?
  }

  function Published(b: Bus, e: Event): Bus {
    if e.id in b.seen then b
    else
      var known := e.corr in b.queues;
      b.(seen := b.seen + {e.id},
         queues := b.queues[e.corr := (if known then b.queues[e.corr] else []) + [Deliver(e)]],
         workers := if known then b.workers else b.workers[e.corr := Waiting],
         published := b.published + [e])
  }

  function Dequeued(b: Bus, c: Correlation): Bus
    requires Enabled(b, Dequeue(c))
  {
    var rest := b.(queues := b.queues[c := b.queues[c][1..]]);
    match b.queues[c][0]
    case Stop => rest.(workers := b.workers[c := Finished])
    case Deliver(e) =>
      rest.(workers := b.workers[c := Dispatching(e, HandlersFor(b, e), [])], dispatching := b.dispatching + 1)
  }

  function Next(b: Bus, s: Step): Bus
    requires Enabled(b, s)
  {
    match s
    case Subscribe(kind, h) => b.(subs := b.subs[kind := Subscribed(b, kind) + [h]])
    case Publish(e) => Published(b, e)
    case Dequeue(c) => Dequeued(b, c)
    case HandlerDone(c, outcome) =>
      if outcome.Escaped? then Ended(b, c, b.workers[c].outcomes + [outcome], Dead)
      else b.(workers := b.workers[c := b.workers[c].(outcomes := b.workers[c].outcomes + [outcome])])
    case DispatchDone(c) => Ended(b, c, b.workers[c].outcomes, Waiting)
  }

  /** The dispatch is over, either way: the `finally` counts down before the worker goes on or ends. */
  function Ended(b: Bus, c: Correlation, outcomes: seq<Outcome>, becomes: Worker): Bus
    requires c in b.workers && b.workers[c].Dispatching?
  {
    b.(workers := b.workers[c := becomes], dispatching := b.dispatching - 1,
       dispatched := b.dispatched + [Delivery(b.workers[c].event, b.workers[c].handlers, outcomes)])
  }

  /** Runs a schedule; a step that is not enabled when its turn comes is passed over. */
  function RunSteps(b: Bus, steps: seq<Step>): Bus {
    if steps == [] then b
    else
      var before, s := RunSteps(b, steps[..|steps| - 1]), steps[|steps| - 1];
      if Enabled(before, s) then Next(before, s) else before
  }

  // ---- what every schedule keeps -----------------------------------------------------------------

  function EventsOf(es: seq<Event>, c: Correlation): seq<Event> {
    if es == [] then []
    else if es[|es| - 1].corr == c then EventsOf(es[..|es| - 1], c) + [es[|es| - 1]]
    else EventsOf(es[..|es| - 1], c)
  }

  function DispatchedOf(ds: seq<Delivery>, c: Correlation): seq<Event> {
    if ds == [] then []
    else if ds[|ds| - 1].event.corr == c then DispatchedOf(ds[..|ds| - 1], c) + [ds[|ds| - 1].event]
    else DispatchedOf(ds[..|ds| - 1], c)
  }

  function InFlight(b: Bus, c: Correlation): seq<Event> {
    if c in b.workers && b.workers[c].Dispatching? then [b.workers[c].event] else []
  }

  function QueuedEvents(q: seq<Message>): seq<Event> {
    if q == [] then []
    else (match q[0] case Deliver(e) => [e] case Stop => []) + QueuedEvents(q[1..])
  }

  function Queued(b: Bus, c: Correlation): seq<Event> {
    if c in b.queues then QueuedEvents(b.queues[c]) else []
  }

  /** Published is dispatched, then in flight, then queued, in that order. */
  predicate Conserved(b: Bus, c: Correlation) {
    EventsOf(b.published, c) == DispatchedOf(b.dispatched, c) + InFlight(b, c) + Queued(b, c)
  }

  function Busy(b: Bus): set<Correlation> {
    set c | c in b.workers && b.workers[c].Dispatching?
  }

  /** The ids of published events are seen, once each. */
  predicate IdsOnce(b: Bus) {
    && (forall e :: e in b.published ==> e.id in b.seen)
    && (forall i, j :: 0 <= i < j < |b.published| ==> b.published[i].id != b.published[j].id)
  }

  predicate IsDead(b: Bus, c: Correlation) {
    c in b.workers && b.workers[c].Dead?
  }

  /** A dispatch is whole or cut short, and a correlation has one cut short exactly when its worker is dead. */
  ghost predicate CutsAreDeaths(b: Bus) {
    && (forall d :: d in b.dispatched ==> d.Whole() || d.CutShort())
    && (forall d :: d in b.dispatched && d.CutShort() ==> IsDead(b, d.event.corr))
    && (forall c :: IsDead(b, c) ==> exists d :: d in b.dispatched && d.event.corr == c && d.CutShort())
  }

  /** Workers and queues hold their own correlation's events. */
  predicate WellFormed(b: Bus) {
    && b.queues.Keys == b.workers.Keys
    && (forall c :: c in b.workers && b.workers[c].Dispatching? ==>
          && b.workers[c].event.corr == c
          && |b.workers[c].outcomes| <= |b.workers[c].handlers| && Escaped !in b.workers[c].outcomes)
    && (forall c :: c in b.workers ==> !b.workers[c].Finished?)
    && (forall c :: c in b.queues ==> HoldsOnly(b.queues[c], c))
  }

  /** Every message is an event of correlation `c`: `close` has queued no stop. */
  predicate HoldsOnly(q: seq<Message>, c: Correlation) {
    forall m :: m in q ==> m.Deliver? && m.event.corr == c
  }

  ghost predicate Inv(b: Bus) {
    && (forall c :: Conserved(b, c))
    && b.dispatching == |Busy(b)|
    && IdsOnce(b) && WellFormed(b) && CutsAreDeaths(b)
  }

  lemma {:induction false} QueuedAppend(q: seq<Message>, e: Event)
    ensures QueuedEvents(q + [Deliver(e)]) == QueuedEvents(q) + [e]
  {
    if q == [] {
      assert QueuedEvents([Deliver(e)]) == [e] + QueuedEvents([Deliver(e)][1..]);
      assert [Deliver(e)][1..] == [];
      assert q + [Deliver(e)] == [Deliver(e)];
    } else {
      QueuedAppend(q[1..], e);
      assert (q + [Deliver(e)])[1..] == q[1..] + [Deliver(e)];
      var head := match q[0] case Deliver(e) => [e] case Stop => [];
      assert head + (QueuedEvents(q[1..]) + [e]) == head + QueuedEvents(q[1..]) + [e];
    }
  }

  lemma PublishedAppend(es: seq<Event>, e: Event, c: Correlation)
    ensures EventsOf(es + [e], c) == EventsOf(es, c) + if e.corr == c then [e] else []
  {
    assert (es + [e])[..|es|] == es;
  }

  lemma DispatchedAppend(ds: seq<Delivery>, d: Delivery, c: Correlation)
    ensures DispatchedOf(ds + [d], c) == DispatchedOf(ds, c) + if d.event.corr == c then [d.event] else []
  {
    assert (ds + [d])[..|ds|] == ds;
  }

  lemma PublishConserves(b: Bus, e: Event, c: Correlation)
    requires Inv(b) && e.id !in b.seen
    ensures Conserved(Published(b, e), c)
  {
    assert Conserved(b, c);
    PublishedAppend(b.published, e, c);
    var b' := Published(b, e);
    if c == e.corr {
      QueuedAppend(if c in b.queues then b.queues[c] else [], e);
      assert QueuedEvents([]) == [];
      assert Queued(b', c) == Queued(b, c) + [e];
      assert InFlight(b', c) == InFlight(b, c);
    } else {
      assert Queued(b', c) == Queued(b, c) && InFlight(b', c) == InFlight(b, c);
    }
  }

  lemma DequeueConserves(b: Bus, c: Correlation, k: Correlation)
    requires Inv(b) && Enabled(b, Dequeue(c))
    ensures Conserved(Dequeued(b, c), k)
  {
    assert Conserved(b, k);
    var b' := Dequeued(b, c);
    if k == c {
      var q := b.queues[c];
      assert QueuedEvents(q) == (match q[0] case Deliver(e) => [e] case Stop => []) + QueuedEvents(q[1..]);
      assert InFlight(b, c) == [] && Queued(b', c) == QueuedEvents(q[1..]);
    } else {
      assert Queued(b', k) == Queued(b, k) && InFlight(b', k) == InFlight(b, k);
    }
  }

  lemma EndedConserves(b: Bus, c: Correlation, outcomes: seq<Outcome>, becomes: Worker, k: Correlation)
    requires Inv(b) && c in b.workers && b.workers[c].Dispatching? && !becomes.Dispatching?
    ensures Conserved(Ended(b, c, outcomes, becomes), k)
  {
    assert Conserved(b, k);
    var w, b' := b.workers[c], Ended(b, c, outcomes, becomes);
    DispatchedAppend(b.dispatched, Delivery(w.event, w.handlers, outcomes), k);
    assert Queued(b', k) == Queued(b, k) && b'.published == b.published;
    if k == c {
      assert InFlight(b, k) == [w.event] && InFlight(b', k) == [];
    } else {
      assert InFlight(b', k) == InFlight(b, k) && w.event.corr != k;
    }
  }

  lemma StepConserves(b: Bus, s: Step, k: Correlation)
    requires Inv(b) && Enabled(b, s)
    ensures Conserved(Next(b, s), k)
  {
    assert Conserved(b, k);
    match s {
      case Publish(e) => if e.id !in b.seen { PublishConserves(b, e, k); }
      case Dequeue(c) => DequeueConserves(b, c, k);
      case DispatchDone(c) => EndedConserves(b, c, b.workers[c].outcomes, Waiting, k);
      case HandlerDone(c, outcome) =>
        if outcome.Escaped? {
          EndedConserves(b, c, b.workers[c].outcomes + [outcome], Dead, k);
        } else {
          assert Queued(Next(b, s), k) == Queued(b, k) && InFlight(Next(b, s), k) == InFlight(b, k);
        }
      case Subscribe(_, _) =>
        assert Queued(Next(b, s), k) == Queued(b, k) && InFlight(Next(b, s), k) == InFlight(b, k);
    }
  }

  lemma DequeueCounts(b: Bus, c: Correlation)
    requires Inv(b) && Enabled(b, Dequeue(c))
    ensures Next(b, Dequeue(c)).dispatching == |Busy(Next(b, Dequeue(c)))|
  {
    assert c !in Busy(b);
    assert Busy(Next(b, Dequeue(c))) == if b.queues[c][0].Stop? then Busy(b) else Busy(b) + {c};
  }

  lemma EndedCounts(b: Bus, c: Correlation, outcomes: seq<Outcome>, becomes: Worker)
    requires Inv(b) && c in b.workers && b.workers[c].Dispatching? && !becomes.Dispatching?
    ensures Ended(b, c, outcomes, becomes).dispatching == |Busy(Ended(b, c, outcomes, becomes))|
  {
    assert c in Busy(b);
    assert Busy(Ended(b, c, outcomes, becomes)) == Busy(b) - {c};
  }

  lemma StepCounts(b: Bus, s: Step)
    requires Inv(b) && Enabled(b, s)
    ensures Next(b, s).dispatching == |Busy(Next(b, s))|
  {
    var b' := Next(b, s);
    match s {
      case Publish(e) =>
        assert Busy(b') == Busy(b);
      case Dequeue(c) => DequeueCounts(b, c);
      case DispatchDone(c) => EndedCounts(b, c, b.workers[c].outcomes, Waiting);
      case HandlerDone(c, outcome) =>
        if outcome.Escaped? {
          EndedCounts(b, c, b.workers[c].outcomes + [outcome], Dead);
        } else {
          assert Busy(b') == Busy(b);
        }
      case Subscribe(_, _) =>
        assert Busy(b') == Busy(b);
    }
  }

  lemma StepKeepsForm(b: Bus, s: Step)
    requires WellFormed(b) && Enabled(b, s)
    ensures WellFormed(Next(b, s))
  {
    match s {
      case Publish(e) =>
        assert HoldsOnly((if e.corr in b.queues then b.queues[e.corr] else []) + [Deliver(e)], e.corr);
      case Dequeue(c) =>
        assert b.queues[c][0] in b.queues[c] && HoldsOnly(b.queues[c][1..], c);
      case _ =>
    }
  }

  lemma EndedKeepsCuts(b: Bus, c: Correlation, outcomes: seq<Outcome>, becomes: Worker)
    requires CutsAreDeaths(b) && c in b.workers && b.workers[c].Dispatching? && b.workers[c].event.corr == c
    requires var d := Delivery(b.workers[c].event, b.workers[c].handlers, outcomes);
      if becomes.Dead? then d.CutShort() else d.Whole()
    ensures CutsAreDeaths(Ended(b, c, outcomes, becomes))
  {
    var b', d := Ended(b, c, outcomes, becomes), Delivery(b.workers[c].event, b.workers[c].handlers, outcomes);
    assert !IsDead(b, c);
    forall k | IsDead(b', k) ensures exists x :: x in b'.dispatched && x.event.corr == k && x.CutShort() {
      if k == c {
        assert d in b'.dispatched;
      } else {
        assert IsDead(b, k);
        var x :| x in b.dispatched && x.event.corr == k && x.CutShort();
        assert x in b'.dispatched;
      }
    }
  }

  lemma StepKeepsCuts(b: Bus, s: Step)
    requires WellFormed(b) && CutsAreDeaths(b) && Enabled(b, s)
    ensures CutsAreDeaths(Next(b, s))
  {
    match s {
      case DispatchDone(c) => EndedKeepsCuts(b, c, b.workers[c].outcomes, Waiting);
      case HandlerDone(c, outcome) =>
        if outcome.Escaped? {
          var outcomes := b.workers[c].outcomes + [outcome];
          assert outcomes[..|outcomes| - 1] == b.workers[c].outcomes;
          EndedKeepsCuts(b, c, outcomes, Dead);
        } else {
          assert forall k :: IsDead(Next(b, s), k) <==> IsDead(b, k);
        }
      case _ =>
        assert forall k :: IsDead(Next(b, s), k) <==> IsDead(b, k);
    }
  }

  lemma StepKeepsIds(b: Bus, s: Step)
    requires IdsOnce(b) && Enabled(b, s)
    ensures IdsOnce(Next(b, s))
  {
  }

  lemma StepKeepsInv(b: Bus, s: Step)
    requires Inv(b) && Enabled(b, s)
    ensures Inv(Next(b, s))
  {
    forall k ensures Conserved(Next(b, s), k) {
      StepConserves(b, s, k);
    }
    StepCounts(b, s);
    StepKeepsForm(b, s);
    StepKeepsCuts(b, s);
    StepKeepsIds(b, s);
  }

  lemma IdleIsInv()
    ensures Inv(IDLE)
  {
    assert Busy(IDLE) == {};
  }

  /** The invariant holds under every schedule. */
  lemma {:induction false} EveryScheduleKeepsInv(b: Bus, steps: seq<Step>)
    requires Inv(b)
    ensures Inv(RunSteps(b, steps))
  {
    if steps != [] {
      var front, s := steps[..|steps| - 1], steps[|steps| - 1];
      EveryScheduleKeepsInv(b, front);
      if Enabled(RunSteps(b, front), s) {
        StepKeepsInv(RunSteps(b, front), s);
      }
    }
  }
}
