/** Safety and progress of the event bus over all schedules. */
module BusTheorems {
  import opened Options
  import opened EventBus

  // ---- order and exactly-once ------------------------------------------------------------------

  lemma {:induction false} EventsOfDistinct(es: seq<Event>, c: Correlation)
    requires forall i, j :: 0 <= i < j < |es| ==> es[i].id != es[j].id
    ensures var s := EventsOf(es, c);
      && (forall i, j :: 0 <= i < j < |s| ==> s[i].id != s[j].id)
      && (forall e :: e in s <==> e in es && e.corr == c)
  {
    if es != [] {
      var front, last := es[..|es| - 1], es[|es| - 1];
      EventsOfDistinct(front, c);
      assert es == front + [last];
      var s := EventsOf(front, c);
      forall i | 0 <= i < |s| ensures s[i].id != last.id {
        assert s[i] in s;
        var k :| 0 <= k < |front| && front[k] == s[i];
        assert es[k] == s[i];
      }
    }
  }

  /** A dispatch's place among the dispatches of its correlation. */
  lemma {:induction false} PlaceOf(ds: seq<Delivery>, i: nat) returns (p: nat)
    requires i < |ds|
    ensures p < |DispatchedOf(ds, ds[i].event.corr)| && DispatchedOf(ds, ds[i].event.corr)[p] == ds[i].event
    ensures p == |DispatchedOf(ds[..i], ds[i].event.corr)|
  {
    var front, c := ds[..|ds| - 1], ds[i].event.corr;
    if i == |ds| - 1 {
      p := |DispatchedOf(front, c)|;
    } else {
      p := PlaceOf(front, i);
      assert front[..i] == ds[..i];
    }
  }

  lemma {:induction false} DispatchedGrows(ds: seq<Delivery>, i: nat, j: nat, c: Correlation)
    requires i <= j <= |ds|
    ensures |DispatchedOf(ds[..i], c)| <= |DispatchedOf(ds[..j], c)|
    decreases j
  {
    if i < j {
      DispatchedGrows(ds, i, j - 1, c);
      assert ds[..j][..j - 1] == ds[..j - 1];
    } else {
      assert ds[..i] == ds[..j];
    }
  }

  /** Every dispatched event was published. */
  lemma DispatchedWasPublished(b: Bus, i: nat)
    requires Inv(b) && i < |b.dispatched|
    ensures b.dispatched[i].event in b.published
  {
    var c := b.dispatched[i].event.corr;
    var p := PlaceOf(b.dispatched, i);
    assert Conserved(b, c);
    assert EventsOf(b.published, c)[p] == b.dispatched[i].event;
    EventsOfDistinct(b.published, c);
    assert EventsOf(b.published, c)[p] in EventsOf(b.published, c);
  }

  lemma AtMostOnce(b: Bus, i: nat, j: nat)
    requires Inv(b) && i < j < |b.dispatched|
    ensures b.dispatched[i].event.id != b.dispatched[j].event.id
  {
    var x, y := b.dispatched[i].event, b.dispatched[j].event;
    DispatchedWasPublished(b, i);
    DispatchedWasPublished(b, j);
    if x.corr == y.corr {
      var p := PlaceOf(b.dispatched, i);
      var q := PlaceOf(b.dispatched, j);
      DispatchedGrows(b.dispatched, i + 1, j, x.corr);
      assert b.dispatched[..i + 1][..i] == b.dispatched[..i];
      assert p < q;
      assert Conserved(b, x.corr);
      EventsOfDistinct(b.published, x.corr);
      assert EventsOf(b.published, x.corr)[p] == x && EventsOf(b.published, x.corr)[q] == y;
    } else {
      var k :| 0 <= k < |b.published| && b.published[k] == x;
      var m :| 0 <= m < |b.published| && b.published[m] == y;
      assert k != m;
    }
  }

  // ---- to whom ------------------------------------------------------------------------------------

  /** The handlers a schedule has subscribed to a kind, or to every kind, in order. */
  function SubscribersOf(steps: seq<Step>, kind: Option<nat>): seq<Handler> {
    if steps == [] then []
    else
      var front, s := SubscribersOf(steps[..|steps| - 1], kind), steps[|steps| - 1];
      if s.Subscribe? && s.kind == kind then front + [s.handler] else front
  }

  /** At turn `i` of the schedule the worker takes the event from the head of its queue. */
  ghost predicate TakenAt(steps: seq<Step>, i: int, e: Event) {
    && 0 <= i < |steps| && steps[i] == Dequeue(e.corr)
    && var before := RunSteps(IDLE, steps[..i]);
       Enabled(before, steps[i]) && before.queues[e.corr][0] == Deliver(e)
  }

  /** The handlers are those subscribed to the event's own kind when it was taken, then those for every kind. */
  ghost predicate Addressed(steps: seq<Step>, e: Event, handlers: seq<Handler>) {
    exists i :: TakenAt(steps, i, e)
      && handlers == SubscribersOf(steps[..i], Some(e.kind)) + SubscribersOf(steps[..i], None)
  }

  /** Every event dispatched, or being dispatched, goes to its subscribers. */
  ghost predicate AllAddressed(steps: seq<Step>, b: Bus) {
    && (forall d :: d in b.dispatched ==> Addressed(steps, d.event, d.handlers))
    && (forall c :: c in b.workers && b.workers[c].Dispatching? ==>
          Addressed(steps, b.workers[c].event, b.workers[c].handlers))
  }

  lemma {:induction false} SubscribersAreKept(steps: seq<Step>, kind: Option<nat>)
    ensures Subscribed(RunSteps(IDLE, steps), kind) == SubscribersOf(steps, kind)
  {
    if steps != [] {
      SubscribersAreKept(steps[..|steps| - 1], kind);
      SubscribersStep(RunSteps(IDLE, steps[..|steps| - 1]), steps[|steps| - 1], kind);
    }
  }

  lemma SubscribersStep(b: Bus, s: Step, kind: Option<nat>)
    ensures s.Subscribe? ==> Enabled(b, s)
    ensures Enabled(b, s) ==>
      Subscribed(Next(b, s), kind) == Subscribed(b, kind) + if s.Subscribe? && s.kind == kind then [s.handler] else []
  {
  }

  lemma StaysAddressed(steps: seq<Step>, s: Step, e: Event, handlers: seq<Handler>)
    requires Addressed(steps, e, handlers)
    ensures Addressed(steps + [s], e, handlers)
  {
    var i :| TakenAt(steps, i, e)
      && handlers == SubscribersOf(steps[..i], Some(e.kind)) + SubscribersOf(steps[..i], None);
    assert (steps + [s])[..i] == steps[..i];
    assert TakenAt(steps + [s], i, e);
  }

  lemma TakingAddresses(steps: seq<Step>, c: Correlation, b: Bus)
    requires b == RunSteps(IDLE, steps) && WellFormed(b) && Enabled(b, Dequeue(c)) && b.queues[c][0].Deliver?
    ensures var e := b.queues[c][0].event; Addressed(steps + [Dequeue(c)], e, HandlersFor(b, e))
  {
    var e := b.queues[c][0].event;
    assert b.queues[c][0] in b.queues[c] && e.corr == c;
    var all := steps + [Dequeue(c)];
    assert all[..|steps|] == steps;
    SubscribersAreKept(steps, Some(e.kind));
    SubscribersAreKept(steps, None);
    assert TakenAt(all, |steps|, e);
  }

  lemma {:induction false} AddressedStep(steps: seq<Step>, s: Step, b: Bus)
    requires b == RunSteps(IDLE, steps) && WellFormed(b) && AllAddressed(steps, b) && Enabled(b, s)
    ensures AllAddressed(steps + [s], Next(b, s))
  {
    forall e, handlers | Addressed(steps, e, handlers) ensures Addressed(steps + [s], e, handlers) {
      StaysAddressed(steps, s, e, handlers);
    }
    if s.Dequeue? && b.queues[s.corr][0].Deliver? {
      TakingAddresses(steps, s.corr, b);
    }
  }

  /** Over every schedule: each event goes to exactly the handlers subscribed when it was taken. */
  lemma {:induction false} DispatchesAreAddressed(steps: seq<Step>)
    ensures AllAddressed(steps, RunSteps(IDLE, steps))
  {
    if steps != [] {
      var front, s := steps[..|steps| - 1], steps[|steps| - 1];
      assert steps == front + [s];
      DispatchesAreAddressed(front);
      IdleIsInv();
      EveryScheduleKeepsInv(IDLE, front);
      var b := RunSteps(IDLE, front);
      if Enabled(b, s) {
        AddressedStep(front, s, b);
      } else {
        forall e, handlers | Addressed(front, e, handlers) ensures Addressed(steps, e, handlers) {
          StaysAddressed(front, s, e, handlers);
        }
      }
    }
  }

  /** The events a schedule publishes, each id once: a later event under a known id is refused. */
  function FirstPublishes(steps: seq<Step>): seq<Event> {
    if steps == [] then []
    else
      var front, s := FirstPublishes(steps[..|steps| - 1]), steps[|steps| - 1];
      if s.Publish? && forall e :: e in front ==> e.id != s.event.id then front + [s.event] else front
  }

  /** Over every schedule: exactly the first event of each id is accepted, and no other id is known. */
  lemma {:induction false} PublishedExactly(steps: seq<Step>)
    ensures RunSteps(IDLE, steps).published == FirstPublishes(steps)
    ensures forall id :: id in RunSteps(IDLE, steps).seen <==> exists e :: e in FirstPublishes(steps) && e.id == id
  {
    if steps != [] {
      PublishedExactly(steps[..|steps| - 1]);
      PublishStep(RunSteps(IDLE, steps[..|steps| - 1]), steps[|steps| - 1]);
      var front, s := FirstPublishes(steps[..|steps| - 1]), steps[|steps| - 1];
      if s.Publish? {
        assert forall e :: e in front + [s.event] <==> e in front || e == s.event;
      }
    }
  }

  lemma PublishStep(b: Bus, s: Step)
    ensures s.Publish? ==> Enabled(b, s)
    ensures Enabled(b, s) ==>
      Next(b, s).published == b.published + if s.Publish? && s.event.id !in b.seen then [s.event] else []
    ensures Enabled(b, s) ==> Next(b, s).seen == b.seen + if s.Publish? then {s.event.id} else {}
  {
  }

  /**
   Safety over all schedules: each correlation's published events are what was dispatched, then
   what is in flight, then what is queued; no id is dispatched twice; and every dispatch has
   called all the handlers subscribed to the event when it was taken, its own kind's first, unless
   one of them let an exception escape and it was the last called.
   */
  lemma {:induction false} DeliverySafety(steps: seq<Step>)
    ensures var b := RunSteps(IDLE, steps);
      && (forall c :: Conserved(b, c))
      && (forall c :: DispatchedOf(b.dispatched, c) <= EventsOf(b.published, c))
      && (forall i, j :: 0 <= i < j < |b.dispatched| ==> b.dispatched[i].event.id != b.dispatched[j].event.id)
      && (forall d :: d in b.dispatched ==> Addressed(steps, d.event, d.handlers) && (d.Whole() || d.CutShort()))
  {
    IdleIsInv();
    EveryScheduleKeepsInv(IDLE, steps);
    DispatchesAreAddressed(steps);
    var b := RunSteps(IDLE, steps);
    forall c ensures DispatchedOf(b.dispatched, c) <= EventsOf(b.published, c) {
      assert Conserved(b, c);
    }
    forall i, j | 0 <= i < j < |b.dispatched| ensures b.dispatched[i].event.id != b.dispatched[j].event.id {
      AtMostOnce(b, i, j);
    }
  }

  // ---- draining ----------------------------------------------------------------------------------

  /** What `drain` polls for. */
  predicate LooksIdle(b: Bus) {
    (forall c :: c in b.queues ==> b.queues[c] == []) && b.dispatching == 0
  }

  ghost predicate AllDispatched(b: Bus) {
    forall c :: DispatchedOf(b.dispatched, c) == EventsOf(b.published, c)
  }

  /** Everything accepted so far has been handed to all its handlers. */
  ghost predicate AllDelivered(b: Bus) {
    AllDispatched(b) && forall d :: d in b.dispatched ==> d.Whole()
  }

  predicate NoneDead(b: Bus) {
    forall c :: c in b.workers ==> !b.workers[c].Dead?
  }

  /**
   Looking idle means that every accepted event has been dispatched. It means that every one
   has been handed to all its handlers if and only if no handler let an exception escape.
   */
  lemma LookingIdleIsDispatched(b: Bus)
    requires Inv(b) && LooksIdle(b)
    ensures AllDispatched(b)
    ensures AllDelivered(b) <==> NoneDead(b)
    ensures forall c :: c in b.workers ==> !b.workers[c].Dispatching?
  {
    assert Busy(b) == {};
    forall c | c in b.workers ensures !b.workers[c].Dispatching? {
      assert c !in Busy(b);
    }
    forall c ensures DispatchedOf(b.dispatched, c) == EventsOf(b.published, c) {
      assert Conserved(b, c);
    }
    WholeExactlyWithoutDeaths(b);
  }

  lemma WholeExactlyWithoutDeaths(b: Bus)
    requires CutsAreDeaths(b)
    ensures (forall d :: d in b.dispatched ==> d.Whole()) <==> NoneDead(b)
  {
    if !NoneDead(b) {
      var c :| c in b.workers && b.workers[c].Dead?;
      assert IsDead(b, c);
      var d :| d in b.dispatched && d.event.corr == c && d.CutShort();
      assert d.outcomes[|d.outcomes| - 1] in d.outcomes;
    }
  }

  // ---- failures that are caught --------------------------------------------------------------------

  /** A failure `_dispatch` catches, seen as a completion; one that escapes stays what it is. */
  function Calmed(o: Outcome): Outcome {
    if o.Escaped? then Escaped else Completed
  }

  function AllCalmed(os: seq<Outcome>): seq<Outcome> {
    seq(|os|, i requires 0 <= i < |os| => Calmed(os[i]))
  }

  lemma CalmedAppend(os: seq<Outcome>, o: Outcome)
    ensures AllCalmed(os + [o]) == AllCalmed(os) + [Calmed(o)]
  {
  }

  function Erase(b: Bus): Bus {
    b.(workers := map c | c in b.workers :: EraseWorker(b.workers[c]),
       dispatched := seq(|b.dispatched|, i requires 0 <= i < |b.dispatched| =>
         b.dispatched[i].(outcomes := AllCalmed(b.dispatched[i].outcomes))))
  }

  function EraseWorker(w: Worker): Worker {
    if w.Dispatching? then w.(outcomes := AllCalmed(w.outcomes)) else w
  }

  function EraseStep(s: Step): Step {
    if s.HandlerDone? then s.(outcome := Calmed(s.outcome)) else s
  }

  function EraseSteps(steps: seq<Step>): seq<Step> {
    seq(|steps|, i requires 0 <= i < |steps| => EraseStep(steps[i]))
  }

  lemma EndedErased(b: Bus, c: Correlation, outcomes: seq<Outcome>, becomes: Worker)
    requires c in b.workers && b.workers[c].Dispatching? && !becomes.Dispatching?
    ensures Erase(Ended(b, c, outcomes, becomes)) == Ended(Erase(b), c, AllCalmed(outcomes), becomes)
  {
    var left, right := Erase(Ended(b, c, outcomes, becomes)), Ended(Erase(b), c, AllCalmed(outcomes), becomes);
    assert left.workers == right.workers;
    assert left.dispatched == right.dispatched;
  }

  lemma HandlerErased(b: Bus, c: Correlation, outcome: Outcome)
    requires Enabled(b, HandlerDone(c, outcome))
    ensures Enabled(Erase(b), HandlerDone(c, Calmed(outcome)))
    ensures Erase(Next(b, HandlerDone(c, outcome))) == Next(Erase(b), HandlerDone(c, Calmed(outcome)))
  {
    CalmedAppend(b.workers[c].outcomes, outcome);
    if outcome.Escaped? {
      EndedErased(b, c, b.workers[c].outcomes + [outcome], Dead);
    } else {
      assert Erase(Next(b, HandlerDone(c, outcome))).workers
          == Next(Erase(b), HandlerDone(c, Calmed(outcome))).workers;
    }
  }

  lemma StepIgnoresCaught(b: Bus, s: Step)
    ensures Enabled(b, s) <==> Enabled(Erase(b), EraseStep(s))
    ensures Enabled(b, s) ==> Erase(Next(b, s)) == Next(Erase(b), EraseStep(s))
  {
    if Enabled(b, s) {
      match s {
        case HandlerDone(c, outcome) => HandlerErased(b, c, outcome);
        case DispatchDone(c) => EndedErased(b, c, b.workers[c].outcomes, Waiting);
        case Dequeue(c) =>
          assert AllCalmed([]) == [];
          assert forall e :: HandlersFor(Erase(b), e) == HandlersFor(b, e);
          assert Erase(Next(b, s)).workers == Next(Erase(b), s).workers;
        case _ =>
          assert Erase(Next(b, s)).workers == Next(Erase(b), s).workers;
      }
    }
  }

  /**
   Whether a handler completes, raises or times out makes no difference to any schedule but
   in the recorded outcome: the same events reach the same handlers in the same order.
   */
  lemma {:induction false} CaughtFailuresAreIsolated(b: Bus, steps: seq<Step>)
    ensures Erase(RunSteps(b, steps)) == RunSteps(Erase(b), EraseSteps(steps))
  {
    if steps != [] {
      var front, s := steps[..|steps| - 1], steps[|steps| - 1];
      CaughtFailuresAreIsolated(b, front);
      assert EraseSteps(steps)[..|steps| - 1] == EraseSteps(front);
      StepIgnoresCaught(RunSteps(b, front), s);
    }
  }

  // ---- failures that escape --------------------------------------------------------------------------

  /** At some turn of the schedule a handler of the correlation let an exception escape. */
  ghost predicate EscapedIn(b: Bus, steps: seq<Step>, c: Correlation) {
    exists i :: 0 <= i < |steps| && steps[i] == HandlerDone(c, Escaped) && Enabled(RunSteps(b, steps[..i]), steps[i])
  }

  lemma EscapedInFront(b: Bus, steps: seq<Step>, c: Correlation)
    requires steps != []
    ensures var front, s := steps[..|steps| - 1], steps[|steps| - 1];
      EscapedIn(b, steps, c) <==>
        EscapedIn(b, front, c) || (s == HandlerDone(c, Escaped) && Enabled(RunSteps(b, front), s))
  {
    var n := |steps| - 1;
    assert forall i :: 0 <= i < n ==> steps[..n][i] == steps[i] && steps[..n][..i] == steps[..i];
  }

  lemma {:induction false} DeadStays(b: Bus, s: Step, c: Correlation)
    requires Inv(b) && Enabled(b, s)
    ensures IsDead(Next(b, s), c) <==> IsDead(b, c) || s == HandlerDone(c, Escaped)
    ensures IsDead(b, c) ==> DispatchedOf(Next(b, s).dispatched, c) == DispatchedOf(b.dispatched, c)
    ensures IsDead(b, c) ==> b.queues[c] <= Next(b, s).queues[c]
  {
    if s.HandlerDone? || s.DispatchDone? {
      var w := b.workers[s.corr];
      var outcomes := if s.HandlerDone? then w.outcomes + [s.outcome] else w.outcomes;
      DispatchedAppend(b.dispatched, Delivery(w.event, w.handlers, outcomes), c);
    }
  }

  /** A worker is dead exactly when the schedule held an escape in its correlation. */
  lemma {:induction false} DeadExactly(b: Bus, steps: seq<Step>, c: Correlation)
    requires Inv(b)
    ensures IsDead(RunSteps(b, steps), c) <==> IsDead(b, c) || EscapedIn(b, steps, c)
  {
    if steps != [] {
      var front, s := steps[..|steps| - 1], steps[|steps| - 1];
      DeadExactly(b, front, c);
      EscapedInFront(b, steps, c);
      EveryScheduleKeepsInv(b, front);
      if Enabled(RunSteps(b, front), s) {
        DeadStays(RunSteps(b, front), s, c);
      }
    }
  }

  /** After an escape nothing of the correlation is dispatched any more, whatever is still published. */
  lemma {:induction false} DeadIsSilent(b: Bus, steps: seq<Step>, c: Correlation)
    requires Inv(b) && IsDead(b, c)
    ensures var b' := RunSteps(b, steps);
      && IsDead(b', c) && c in b'.queues && b.queues[c] <= b'.queues[c]
      && DispatchedOf(b'.dispatched, c) == DispatchedOf(b.dispatched, c)
  {
    if steps != [] {
      var front, s := steps[..|steps| - 1], steps[|steps| - 1];
      DeadIsSilent(b, front, c);
      EveryScheduleKeepsInv(b, front);
      if Enabled(RunSteps(b, front), s) {
        EveryScheduleKeepsInv(b, steps);
        DeadStays(RunSteps(b, front), s, c);
      }
    }
  }

  /** Every event of the correlation has been handed to all its handlers. */
  ghost predicate Served(b: Bus, c: Correlation) {
    && DispatchedOf(b.dispatched, c) == EventsOf(b.published, c)
    && forall d :: d in b.dispatched && d.event.corr == c ==> d.Whole()
  }

  ghost predicate Quiet(b: Bus) {
    forall s :: IsWorkerStep(s) ==> !Enabled(b, s)
  }

  /**
   Isolation, exactly. Run any schedule until no worker can move. A correlation's events have
   all been handed to all their handlers, later ones and later handlers included, if and only
   if no handler of that correlation let an exception escape. What handlers raise or time out
   on, and what happens in other correlations, plays no part.
   */
  lemma {:induction false} IsolationExactly(steps: seq<Step>, c: Correlation)
    requires Quiet(RunSteps(IDLE, steps))
    ensures Served(RunSteps(IDLE, steps), c) <==> !EscapedIn(IDLE, steps, c)
    ensures forall d :: d in RunSteps(IDLE, steps).dispatched ==> Addressed(steps, d.event, d.handlers)
  {
    var b := RunSteps(IDLE, steps);
    DispatchesAreAddressed(steps);
    IdleIsInv();
    EveryScheduleKeepsInv(IDLE, steps);
    DeadExactly(IDLE, steps, c);
    if IsDead(b, c) {
      var d :| d in b.dispatched && d.event.corr == c && d.CutShort();
      assert d.outcomes[|d.outcomes| - 1] in d.outcomes;
      assert !d.Whole();
    } else {
      QuietIsDone(b, c);
    }
  }

  lemma QuietIsDone(b: Bus, c: Correlation)
    requires Inv(b) && Quiet(b) && !IsDead(b, c)
    ensures Served(b, c)
    ensures c in b.queues ==> b.queues[c] == []
  {
    assert Conserved(b, c);
    assert !Enabled(b, Dequeue(c)) && !Enabled(b, HandlerDone(c, Completed)) && !Enabled(b, DispatchDone(c));
  }

  // ---- progress --------------------------------------------------------------------------------------

  function MessageWork(b: Bus, m: Message): nat {
    match m
    case Stop => 1
    case Deliver(e) => 2 + |HandlersFor(b, e)|
  }

  function QueueWork(b: Bus, q: seq<Message>): nat {
    if q == [] then 0 else MessageWork(b, q[0]) + QueueWork(b, q[1..])
  }

  /** The worker steps still owed to one correlation. */
  function Work(b: Bus, c: Correlation): nat {
    if IsDead(b, c) then 0
    else
      (if c in b.queues then QueueWork(b, b.queues[c]) else 0)
      + (if c in b.workers && b.workers[c].Dispatching? && |b.workers[c].outcomes| <= |b.workers[c].handlers|
         then 1 + |b.workers[c].handlers| - |b.workers[c].outcomes| else 0)
  }

  ghost function Pick(s: set<Correlation>): Correlation
    requires s != {}
  {
    var c :| c in s;
    c
  }

  ghost function TotalWork(b: Bus, cs: set<Correlation>): nat {
    if cs == {} then 0 else Work(b, Pick(cs)) + TotalWork(b, cs - {Pick(cs)})
  }

  lemma {:induction false} SameWork(b: Bus, b': Bus, cs: set<Correlation>)
    requires forall c :: c in cs ==> Work(b, c) == Work(b', c)
    ensures TotalWork(b, cs) == TotalWork(b', cs)
    decreases cs
  {
    if cs != {} {
      SameWork(b, b', cs - {Pick(cs)});
    }
  }

  lemma {:induction false} WorkSplits(b: Bus, cs: set<Correlation>, c: Correlation)
    requires c in cs
    ensures TotalWork(b, cs) == Work(b, c) + TotalWork(b, cs - {c})
    decreases cs
  {
    var d := Pick(cs);
    if d != c {
      WorkSplits(b, cs - {d}, c);
      WorkSplits(b, cs - {c}, d);
      assert cs - {d} - {c} == cs - {c} - {d};
    }
  }

  function CorrOf(s: Step): Correlation
    requires IsWorkerStep(s)
  {
    s.corr
  }

  lemma {:induction false} QueueWorkSame(b: Bus, b': Bus, q: seq<Message>)
    requires b.subs == b'.subs
    ensures QueueWork(b, q) == QueueWork(b', q)
  {
    if q != [] {
      QueueWorkSame(b, b', q[1..]);
    }
  }

  predicate Escapes(s: Step) {
    s.HandlerDone? && s.outcome.Escaped?
  }

  lemma WorkerStepWorks(b: Bus, s: Step)
    requires Inv(b) && IsWorkerStep(s) && Enabled(b, s)
    ensures Work(Next(b, s), CorrOf(s)) <= Work(b, CorrOf(s)) - 1
    ensures !Escapes(s) ==> Work(Next(b, s), CorrOf(s)) == Work(b, CorrOf(s)) - 1
    ensures forall k :: k != CorrOf(s) ==> Work(Next(b, s), k) == Work(b, k)
  {
    var b', c := Next(b, s), CorrOf(s);
    forall q ensures QueueWork(b, q) == QueueWork(b', q) {
      QueueWorkSame(b, b', q);
    }
  }

  /** Each worker step does one unit of the work that is left, and an escape drops what is left of its correlation. */
  lemma WorkerStepDecreases(b: Bus, s: Step)
    requires Inv(b) && IsWorkerStep(s) && Enabled(b, s)
    ensures TotalWork(Next(b, s), Next(b, s).workers.Keys) <= TotalWork(b, b.workers.Keys) - 1
    ensures !Escapes(s) ==> TotalWork(Next(b, s), Next(b, s).workers.Keys) == TotalWork(b, b.workers.Keys) - 1
  {
    var b', c, cs := Next(b, s), CorrOf(s), b.workers.Keys;
    assert c in cs && b'.workers.Keys == cs;
    WorkerStepWorks(b, s);
    WorkSplits(b, cs, c);
    WorkSplits(b', cs, c);
    SameWork(b, b', cs - {c});
  }

  /** Messages no worker will ever take. */
  predicate Stranded(b: Bus, c: Correlation) {
    IsDead(b, c) && c in b.queues && b.queues[c] != []
  }

  predicate NothingStranded(b: Bus) {
    forall c :: c in b.workers ==> !Stranded(b, c)
  }

  /** Until the bus looks idle some worker can take a step, unless what is left is stranded. */
  lemma SomeStepIsEnabled(b: Bus)
    requires Inv(b) && !LooksIdle(b) && NothingStranded(b)
    ensures exists s :: IsWorkerStep(s) && Enabled(b, s) && !Escapes(s)
  {
    if b.dispatching != 0 {
      assert Busy(b) != {};
      var c :| c in Busy(b);
      if |b.workers[c].outcomes| < |b.workers[c].handlers| {
        assert Enabled(b, HandlerDone(c, Completed)) && !Escapes(HandlerDone(c, Completed));
      } else {
        assert Enabled(b, DispatchDone(c));
      }
    } else {
      var c :| c in b.queues && b.queues[c] != [];
      assert Busy(b) == {} && c !in Busy(b);
      assert !Stranded(b, c);
      assert Enabled(b, Dequeue(c));
    }
  }

  /** Where no worker can move, the bus looks idle if and only if nothing is stranded. */
  lemma QuietLooksIdleExactly(b: Bus)
    requires Inv(b) && Quiet(b)
    ensures LooksIdle(b) <==> NothingStranded(b)
  {
    if NothingStranded(b) && !LooksIdle(b) {
      SomeStepIsEnabled(b);
    }
  }

  /** A schedule of worker steps, each enabled when its turn comes. */
  ghost predicate WorkersOnly(b: Bus, steps: seq<Step>) {
    forall i :: 0 <= i < |steps| ==> IsWorkerStep(steps[i]) && Enabled(RunSteps(b, steps[..i]), steps[i])
  }

  lemma WorkersOnlyPrefix(b: Bus, steps: seq<Step>)
    requires WorkersOnly(b, steps) && steps != []
    ensures WorkersOnly(b, steps[..|steps| - 1])
    ensures IsWorkerStep(steps[|steps| - 1]) && Enabled(RunSteps(b, steps[..|steps| - 1]), steps[|steps| - 1])
  {
    var front := steps[..|steps| - 1];
    assert forall i :: 0 <= i < |front| ==> front[i] == steps[i] && front[..i] == steps[..i];
  }

  lemma WorkersPublishNothing(b: Bus, s: Step)
    requires IsWorkerStep(s) && Enabled(b, s)
    ensures Next(b, s).published == b.published
  {
  }

  /**
   Without new publishes the workers reach quiescence: no schedule of worker steps is longer
   than the work there was, and without escapes it is exactly as long as the work it does.
   */
  lemma {:induction false} WorkersReachQuiescence(b: Bus, steps: seq<Step>)
    requires Inv(b) && WorkersOnly(b, steps)
    ensures Inv(RunSteps(b, steps)) && RunSteps(b, steps).published == b.published
    ensures TotalWork(RunSteps(b, steps), RunSteps(b, steps).workers.Keys) <= TotalWork(b, b.workers.Keys) - |steps|
    ensures (forall s :: s in steps ==> !Escapes(s)) ==>
      TotalWork(RunSteps(b, steps), RunSteps(b, steps).workers.Keys) == TotalWork(b, b.workers.Keys) - |steps|
  {
    if steps != [] {
      var front, s := steps[..|steps| - 1], steps[|steps| - 1];
      WorkersOnlyPrefix(b, steps);
      WorkersReachQuiescence(b, front);
      WorkersPublishNothing(RunSteps(b, front), s);
      WorkerStepDecreases(RunSteps(b, front), s);
      StepKeepsInv(RunSteps(b, front), s);
    }
  }

  /** A step that is not an escape strands nothing, if workers alone take it. */
  lemma StepStrandsNothing(b: Bus, s: Step)
    requires Inv(b) && NothingStranded(b) && IsWorkerStep(s) && Enabled(b, s) && !Escapes(s)
    ensures NothingStranded(Next(b, s))
  {
  }

  predicate IdleAfter(b: Bus, steps: seq<Step>) {
    LooksIdle(RunSteps(b, steps))
  }

  /** Whatever workers have done so far, they can go on until the bus looks idle. */
  lemma {:induction false} WorkOff(b: Bus, steps: seq<Step>) returns (more: seq<Step>)
    requires Inv(b) && Inv(RunSteps(b, steps)) && NothingStranded(RunSteps(b, steps))
    ensures IdleAfter(b, more)
    decreases TotalWork(RunSteps(b, steps), RunSteps(b, steps).workers.Keys)
  {
    var now := RunSteps(b, steps);
    if LooksIdle(now) {
      more := steps;
    } else {
      SomeStepIsEnabled(now);
      var s :| IsWorkerStep(s) && Enabled(now, s) && !Escapes(s);
      WorkerStepDecreases(now, s);
      StepKeepsInv(now, s);
      StepStrandsNothing(now, s);
      assert (steps + [s])[..|steps|] == steps;
      assert RunSteps(b, steps + [s]) == Next(now, s);
      more := WorkOff(b, steps + [s]);
    }
  }

  /**
   Draining, exactly. The condition `drain` polls for can still come true, under some schedule
   of whatever length, if and only if no dead worker's queue holds an event.
   */
  lemma DrainableExactly(b: Bus)
    requires Inv(b)
    ensures (exists steps :: IdleAfter(b, steps)) <==> NothingStranded(b)
  {
    if NothingStranded(b) {
      assert RunSteps(b, []) == b;
      var steps := WorkOff(b, []);
      assert IdleAfter(b, steps);
    } else {
      var c :| c in b.workers && Stranded(b, c);
      forall steps ensures !IdleAfter(b, steps) {
        DeadIsSilent(b, steps, c);
        assert RunSteps(b, steps).queues[c] != [];
      }
    }
  }

  // ---- the two ways an escape shows ------------------------------------------------------------------

  lemma OneStepMore(b: Bus, steps: seq<Step>, s: Step)
    ensures RunSteps(b, steps + [s])
      == if Enabled(RunSteps(b, steps), s) then Next(RunSteps(b, steps), s) else RunSteps(b, steps)
  {
    assert (steps + [s])[..|steps|] == steps;
  }

  /** One handler, one event, and the handler lets an exception escape. */
  lemma AfterOneEscape(e: Event, h: Handler) returns (steps: seq<Step>)
    ensures var b := RunSteps(IDLE, steps);
      && b.published == [e] && b.seen == {e.id} && b.queues == map[e.corr := []] && b.workers == map[e.corr := Dead]
      && b.dispatching == 0 && b.dispatched == [Delivery(e, [h], [Escaped])]
  {
    var s1, s2, s3, s4 := Subscribe(None, h), Publish(e), Dequeue(e.corr), HandlerDone(e.corr, Escaped);
    OneStepMore(IDLE, [], s1);
    var b1 := Next(IDLE, s1);
    assert [] + [h] == [h] && b1.subs == map[None := [h]];
    OneStepMore(IDLE, [] + [s1], s2);
    var b2 := Next(b1, s2);
    assert [] + [Deliver(e)] == [Deliver(e)];
    assert b2.queues == map[e.corr := [Deliver(e)]] && b2.workers == map[e.corr := Waiting];
    OneStepMore(IDLE, [] + [s1] + [s2], s3);
    var b3 := Next(b2, s3);
    assert HandlersFor(b2, e) == [h];
    assert b3.queues == map[e.corr := []] && b3.workers == map[e.corr := Dispatching(e, [h], [])];
    OneStepMore(IDLE, [] + [s1] + [s2] + [s3], s4);
    var b4 := Next(b3, s4);
    assert [] + [Escaped] == [Escaped];
    assert b4.workers == map[e.corr := Dead];
    steps := [] + [s1] + [s2] + [s3] + [s4];
  }

  /** `drain` returns although the event's handling was cut short. */
  lemma DrainOverlooksTheEscape(e: Event, h: Handler) returns (steps: seq<Step>)
    ensures LooksIdle(RunSteps(IDLE, steps)) && !AllDelivered(RunSteps(IDLE, steps))
  {
    steps := AfterOneEscape(e, h);
    var d := Delivery(e, [h], [Escaped]);
    assert d in RunSteps(IDLE, steps).dispatched && Escaped in d.outcomes;
  }

  /** The correlation's next event is accepted, never dispatched, and no drain succeeds again. */
  lemma NextEventIsStranded(e: Event, h: Handler, next: Event) returns (steps: seq<Step>)
    requires next.corr == e.corr && next.id != e.id
    ensures next in RunSteps(IDLE, steps).published
    ensures forall more :: !IdleAfter(RunSteps(IDLE, steps), more)
  {
    var before := AfterOneEscape(e, h);
    steps := before + [Publish(next)];
    OneStepMore(IDLE, before, Publish(next));
    IdleIsInv();
    EveryScheduleKeepsInv(IDLE, steps);
    var b := RunSteps(IDLE, steps);
    assert b.published == [e, next] && b.queues[e.corr] == [Deliver(next)];
    assert Stranded(b, e.corr) && !NothingStranded(b);
    DrainableExactly(b);
  }
}
