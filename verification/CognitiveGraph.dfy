/**
 The cognitive cycle's graph (joker/graph/cognitive_graph.py): which node runs next,
 the bounded strategy-switch loop, and the gate in front of order submission. What
 agents, loaders and gateways answer is an oracle, one answer per node visit.
 */
module CognitiveGraph {
  import opened Options

  /** The nodes that run once, in a row, before the first debate. */
  datatype Opening =
    | ValidateTrigger | HydrateContext | Perception | SynthesiseWorldModel | Discovery | Strategy
    | SelectDebateCandidates

  datatype Node =
    | Open(at: Opening)
    | Debate | MetaDecision | StrategySwitchRevision
    | EntryTactician | ValidateProposal | SubmitCommand
    | Persist(outcome: Outcome)
    | End | Aborted

  /** Names both the four closing nodes and what each of them announces. */
  datatype Outcome = Completed | Delayed | EvidenceRequested | WentStale

  datatype Action = Execute | Probe | Delay | RequestMoreEvidence | SwitchStrategy | OtherAction

  datatype Verdict = Passes | FoundStale | Fails

  /** What the gateway or the submit callback does with a command. */
  datatype Gate = NoCallback | Blocked | Accepted | Explodes

  /** What the outside world does during one node visit; a node reads only its own part. */
  datatype Answer =
    | Raise
    | Reply(decision: Option<Action>, proposes: bool, verdict: Verdict, recheckPasses: bool, gate: Gate)

  datatype Event =
    | Debated
    | Revised
    | Decided(action: Action)
    | Validated(verdict: Verdict)
    | HandedOver(accepted: bool)
    | Published(outcome: Outcome)

  /** The limits are plain integers in the settings, so negative ones are possible; the event bus is optional. */
  datatype Config = Config(maxSwitches: int, maxDebateRounds: int, hasEventBus: bool)

  datatype State = State(
    node: Node,
    switches: int,
    debateRound: int,
    meta: Option<Action>,
    proposal: bool,
    stale: bool,
    validationFailed: bool,
    commandId: bool)

  function Initial(): State {
    State(Open(ValidateTrigger), 0, 0, None, false, false, false, false)
  }

  function AfterOpening(at: Opening): Node {
    match at
    case ValidateTrigger => Open(HydrateContext)
    case HydrateContext => Open(Perception)
    case Perception => Open(SynthesiseWorldModel)
    case SynthesiseWorldModel => Open(Discovery)
    case Discovery => Open(Strategy)
    case Strategy => Open(SelectDebateCandidates)
    case SelectDebateCandidates => Debate
  }

  function RouteMetaDecision(c: Config, s: State): Node {
    if s.meta.None? then Persist(Completed)
    else if s.stale then Persist(WentStale)
    else match s.meta.value
      case Execute => EntryTactician
      case Probe => EntryTactician
      case Delay => Persist(Delayed)
      case RequestMoreEvidence => Persist(EvidenceRequested)
      case SwitchStrategy => if s.switches >= c.maxSwitches then Persist(Completed) else StrategySwitchRevision
      case OtherAction => Persist(Completed)
  }

  function AfterSwitchRoute(c: Config, s: State): Node {
    if s.debateRound <= c.maxDebateRounds then Debate else MetaDecision
  }

  function AfterValidateRoute(s: State): Node {
    if s.stale then Persist(WentStale) else if s.validationFailed then Persist(Completed) else SubmitCommand
  }

  /** A decision node without its context leaves the previous decision standing. */
  function Decide(s: State, a: Answer): State
    requires a.Reply?
  {
    if a.decision.None? then s else s.(meta := a.decision)
  }

  function Revise(s: State): State {
    s.(switches := s.switches + 1, debateRound := s.debateRound + 1)
  }

  /** Without a proposal validation only records an error the route does not look at. */
  function Validate(s: State, a: Answer): State
    requires a.Reply?
  {
    if !s.proposal then s
    else s.(stale := s.stale || a.verdict.FoundStale?, validationFailed := s.validationFailed || a.verdict.Fails?)
  }

  /** Whether this visit of the submit node hands a command over: proposal, no earlier command, second validation. */
  predicate HandsOver(s: State, a: Answer)
    requires a.Reply?
  {
    s.proposal && !s.commandId && a.recheckPasses && !a.gate.NoCallback?
  }

  function Submit(s: State, a: Answer): State
    requires a.Reply?
  {
    if HandsOver(s, a) && a.gate.Explodes? then s.(node := Aborted)
    else s.(node := Persist(Completed), commandId := s.commandId || (HandsOver(s, a) && a.gate.Accepted?))
  }

  predicate Finished(s: State) {
    s.node.End? || s.node.Aborted?
  }

  /** One node visit and the edge taken after it. */
  function Step(c: Config, s: State, a: Answer): State {
    if Finished(s) then s
    else if a.Raise? then s.(node := Aborted)
    else match s.node
      case Open(at) => s.(node := AfterOpening(at))
      case Debate => s.(node := MetaDecision)
      case MetaDecision => var t := Decide(s, a); t.(node := RouteMetaDecision(c, t))
      case StrategySwitchRevision => var t := Revise(s); t.(node := AfterSwitchRoute(c, t))
      case EntryTactician => s.(node := ValidateProposal, proposal := s.proposal || a.proposes)
      case ValidateProposal => var t := Validate(s, a); t.(node := AfterValidateRoute(t))
      case SubmitCommand => Submit(s, a)
      case Persist(_) => s.(node := End)
      case _ => s
  }

  /** What an onlooker sees of one node visit. */
  function Seen(c: Config, s: State, a: Answer): Option<Event> {
    if a.Raise? then None
    else match s.node
      case Debate => Some(Debated)
      case MetaDecision => if a.decision.None? then None else Some(Decided(a.decision.value))
      case StrategySwitchRevision => Some(Revised)
      case ValidateProposal => if s.proposal then Some(Validated(a.verdict)) else None
      case SubmitCommand => if HandsOver(s, a) then Some(HandedOver(a.gate.Accepted?)) else None
      case Persist(outcome) => if c.hasEventBus then Some(Published(outcome)) else None
      case _ => None
  }

  /** The run after `n` node visits. */
  function Run(c: Config, oracle: nat -> Answer, n: nat): State {
    if n == 0 then Initial() else Step(c, Run(c, oracle, n - 1), oracle(n - 1))
  }

  /** Everything seen of the run in `n` node visits. */
  function Log(c: Config, oracle: nat -> Answer, n: nat): seq<Event> {
    if n == 0 then []
    else
      var earlier, seen := Log(c, oracle, n - 1), Seen(c, Run(c, oracle, n - 1), oracle(n - 1));
      if seen.Some? then earlier + [seen.value] else earlier
  }

  function AtLeastZero(n: int): nat {
    if n > 0 then n else 0
  }

  function Smaller(a: int, b: int): int {
    if a < b then a else b
  }

  /** Reading a log: how often things happened, and the decision and verdict in force at its end. */
  datatype Tally = Tally(debates: nat, revisions: nat, handovers: nat,
                         decision: Option<Action>, verdict: Option<Verdict>)

  function Noted(t: Tally, e: Event): Tally {
    match e
    case Debated => t.(debates := t.debates + 1)
    case Revised => t.(revisions := t.revisions + 1)
    case Decided(action) => t.(decision := Some(action))
    case Validated(verdict) => t.(verdict := Some(verdict))
    case HandedOver(_) => t.(handovers := t.handovers + 1)
    case Published(_) => t
  }

  function TallyOf(log: seq<Event>): Tally {
    if log == [] then Tally(0, 0, 0, None, None) else Noted(TallyOf(log[..|log| - 1]), log[|log| - 1])
  }

  function NotedIf(t: Tally, e: Option<Event>): Tally {
    if e.Some? then Noted(t, e.value) else t
  }

  lemma TallyOfLog(c: Config, oracle: nat -> Answer, n: nat)
    requires n > 0
    ensures TallyOf(Log(c, oracle, n))
         == NotedIf(TallyOf(Log(c, oracle, n - 1)), Seen(c, Run(c, oracle, n - 1), oracle(n - 1)))
  {
    var before, now := Log(c, oracle, n - 1), Log(c, oracle, n);
    if now != before {
      assert now[..|now| - 1] == before;
    }
  }

  // ---------------------------------------------------------------- every run ends

  function Stage(at: Opening): nat {
    match at
    case ValidateTrigger => 7
    case HydrateContext => 6
    case Perception => 5
    case SynthesiseWorldModel => 4
    case Discovery => 3
    case Strategy => 2
    case SelectDebateCandidates => 1
  }

  /** An upper bound on the node visits still to come. */
  function Rank(c: Config, s: State): int {
    var left := 3 * (AtLeastZero(c.maxSwitches) - s.switches);
    match s.node
    case Open(at) => 6 + Stage(at) + left
    case Debate => 6 + left
    case MetaDecision => 5 + left
    case StrategySwitchRevision => 4 + left
    case EntryTactician => 4
    case ValidateProposal => 3
    case SubmitCommand => 2
    case Persist(_) => 1
    case End => 0
    case Aborted => 0
  }

  predicate SwitchesBounded(c: Config, s: State) {
    && 0 <= s.switches <= AtLeastZero(c.maxSwitches)
    && s.debateRound == s.switches
    && (s.node.StrategySwitchRevision? ==> s.switches < c.maxSwitches)
  }

  lemma StepKeepsSwitchesBounded(c: Config, s: State, a: Answer)
    requires SwitchesBounded(c, s)
    ensures SwitchesBounded(c, Step(c, s, a))
  {
  }

  lemma StepLowersRank(c: Config, s: State, a: Answer)
    requires SwitchesBounded(c, s) && !Finished(s)
    ensures Rank(c, Step(c, s, a)) < Rank(c, s)
  {
  }

  function Longest(c: Config): nat {
    13 + 3 * AtLeastZero(c.maxSwitches)
  }

  lemma {:induction false} RankAfter(c: Config, oracle: nat -> Answer, n: nat)
    ensures SwitchesBounded(c, Run(c, oracle, n))
    ensures Finished(Run(c, oracle, n)) || 1 <= Rank(c, Run(c, oracle, n)) <= Longest(c) - n
  {
    if n > 0 {
      RankAfter(c, oracle, n - 1);
      var s := Run(c, oracle, n - 1);
      StepKeepsSwitchesBounded(c, s, oracle(n - 1));
      if !Finished(s) {
        StepLowersRank(c, s, oracle(n - 1));
      }
    }
  }

  /** Whatever the agents answer, the run is over after a number of visits fixed by the settings. */
  lemma EveryRunEnds(c: Config, oracle: nat -> Answer, n: nat)
    requires n >= Longest(c)
    ensures Finished(Run(c, oracle, n))
  {
    RankAfter(c, oracle, n);
  }

  // ---------------------------------------------------------------- the loop's accounting

  /** Debates held are exactly one plus the revisions the debate limit let through. */
  predicate DebatesAccounted(c: Config, s: State, t: Tally) {
    var through := 1 + Smaller(s.switches, AtLeastZero(c.maxDebateRounds));
    && t.revisions == s.switches
    && match s.node
       case Open(_) => t.debates == 0 && s.switches == 0
       case Debate => t.debates + 1 == through
       case Aborted => t.debates <= through
       case _ => t.debates == through
  }

  lemma StepAccounts(c: Config, s: State, a: Answer, t: Tally)
    requires SwitchesBounded(c, s) && DebatesAccounted(c, s, t)
    ensures !Finished(s) ==> DebatesAccounted(c, Step(c, s, a), NotedIf(t, Seen(c, s, a)))
  {
  }

  lemma {:induction false} RunAccounts(c: Config, oracle: nat -> Answer, n: nat)
    ensures DebatesAccounted(c, Run(c, oracle, n), TallyOf(Log(c, oracle, n)))
  {
    if n > 0 {
      RunAccounts(c, oracle, n - 1);
      RankAfter(c, oracle, n - 1);
      TallyOfLog(c, oracle, n);
      StepAccounts(c, Run(c, oracle, n - 1), oracle(n - 1), TallyOf(Log(c, oracle, n - 1)));
    }
  }

  /** The bounds on the loop, at every moment of every run. */
  lemma {:induction false} LoopIsBounded(c: Config, oracle: nat -> Answer, n: nat)
    ensures var t := TallyOf(Log(c, oracle, n));
            && t.revisions <= AtLeastZero(c.maxSwitches)
            && t.debates <= 1 + Smaller(AtLeastZero(c.maxSwitches), AtLeastZero(c.maxDebateRounds))
  {
    RunAccounts(c, oracle, n);
    RankAfter(c, oracle, n);
  }

  /** Oracles that give the same answer at every visit. */
  ghost predicate Always(oracle: nat -> Answer, a: Answer) {
    forall n :: oracle(n) == a
  }

  /** A meta decision that asks for another strategy every time. */
  const RESTLESS := Reply(Some(SwitchStrategy), true, Passes, true, Accepted)

  predicate InTheLoop(c: Config, s: State) {
    && !s.stale
    && (s.node.Open? || s.node.Debate? || s.node.MetaDecision? || s.node.StrategySwitchRevision?
        || ((s.node == Persist(Completed) || s.node.End?) && s.switches >= c.maxSwitches))
  }

  lemma RestlessStep(c: Config, s: State)
    requires InTheLoop(c, s)
    ensures InTheLoop(c, Step(c, s, RESTLESS))
  {
  }

  lemma {:induction false} RestlessStaysInTheLoop(c: Config, oracle: nat -> Answer, n: nat)
    requires Always(oracle, RESTLESS)
    ensures InTheLoop(c, Run(c, oracle, n))
  {
    if n > 0 {
      RestlessStaysInTheLoop(c, oracle, n - 1);
      RestlessStep(c, Run(c, oracle, n - 1));
    }
  }

  /** Both bounds are reached, so neither can be lowered. */
  lemma BoundsAreReached(c: Config, oracle: nat -> Answer)
    requires Always(oracle, RESTLESS)
    ensures var t := TallyOf(Log(c, oracle, Longest(c)));
            && Run(c, oracle, Longest(c)).node.End?
            && t.revisions == AtLeastZero(c.maxSwitches)
            && t.debates == 1 + Smaller(AtLeastZero(c.maxSwitches), AtLeastZero(c.maxDebateRounds))
  {
    var n := Longest(c);
    EveryRunEnds(c, oracle, n);
    RestlessStaysInTheLoop(c, oracle, n);
    RunAccounts(c, oracle, n);
    RankAfter(c, oracle, n);
  }

  // ---------------------------------------------------------------- the submission gate

  /** An entry was decided on and its proposal has passed validation. */
  predicate Cleared(t: Tally) {
    (t.decision == Some(Execute) || t.decision == Some(Probe)) && t.verdict == Some(Passes)
  }

  ghost predicate EveryHandOverCleared(log: seq<Event>) {
    forall i :: 0 <= i < |log| && log[i].HandedOver? ==> Cleared(TallyOf(log[..i]))
  }

  /** What each node may rely on when it is entered. */
  predicate Knows(s: State, t: Tally) {
    && s.meta == t.decision
    && t.handovers <= 1
    && (|| Finished(s)
        || ((s.stale <==> t.verdict == Some(FoundStale)) && (s.validationFailed <==> t.verdict == Some(Fails))))
    && match s.node
       case EntryTactician => Entering(t) && t.verdict.None? && !s.proposal
       case ValidateProposal => Entering(t) && t.verdict.None?
       case SubmitCommand => Entering(t) && t.verdict == if s.proposal then Some(Passes) else None
       case Persist(outcome) => outcome == OutcomeOf(t)
       case End => true
       case Aborted => true
       case _ => t.handovers == 0 && t.verdict.None? && !s.proposal
  }

  predicate Entering(t: Tally) {
    t.handovers == 0 && (t.decision == Some(Execute) || t.decision == Some(Probe))
  }

  /** How the end of the cycle must be announced, from the last decision and verdict alone. */
  function OutcomeOf(t: Tally): Outcome {
    if t.verdict == Some(FoundStale) then WentStale
    else if t.decision == Some(Delay) then Delayed
    else if t.decision == Some(RequestMoreEvidence) then EvidenceRequested
    else Completed
  }

  lemma StepKnows(c: Config, s: State, a: Answer, t: Tally)
    requires Knows(s, t) && !Finished(s)
    ensures Knows(Step(c, s, a), NotedIf(t, Seen(c, s, a)))
    ensures Seen(c, s, a).Some? && Seen(c, s, a).value.HandedOver? ==> Cleared(t) && t.handovers == 0
    ensures Seen(c, s, a).Some? && Seen(c, s, a).value.Published? ==> Seen(c, s, a).value.outcome == OutcomeOf(t)
  {
  }

  lemma {:induction false} RunKnows(c: Config, oracle: nat -> Answer, n: nat)
    ensures Knows(Run(c, oracle, n), TallyOf(Log(c, oracle, n)))
  {
    if n > 0 {
      RunKnows(c, oracle, n - 1);
      TallyOfLog(c, oracle, n);
      if !Finished(Run(c, oracle, n - 1)) {
        StepKnows(c, Run(c, oracle, n - 1), oracle(n - 1), TallyOf(Log(c, oracle, n - 1)));
      }
    }
  }

  /**
   The submission gate, for every run and every moment in it: at most one command is
   ever handed over, and at that moment the decision in force is to execute or to
   probe and the proposal's validation has passed, neither failed nor stale.
   */
  lemma {:induction false} SubmissionGate(c: Config, oracle: nat -> Answer, n: nat)
    ensures var log := Log(c, oracle, n);
            && TallyOf(log).handovers <= 1
            && EveryHandOverCleared(log)
  {
    RunKnows(c, oracle, n);
    if n > 0 {
      SubmissionGate(c, oracle, n - 1);
      RunKnows(c, oracle, n - 1);
      var s, before := Run(c, oracle, n - 1), Log(c, oracle, n - 1);
      if !Finished(s) {
        StepKnows(c, s, oracle(n - 1), TallyOf(before));
      }
      if Seen(c, s, oracle(n - 1)).Some? {
        ClearedSnoc(before, Seen(c, s, oracle(n - 1)).value);
      }
    }
  }

  lemma {:induction false} ClearedSnoc(log: seq<Event>, e: Event)
    requires EveryHandOverCleared(log)
    requires e.HandedOver? ==> Cleared(TallyOf(log))
    ensures EveryHandOverCleared(log + [e])
  {
    forall i | 0 <= i < |log + [e]| && (log + [e])[i].HandedOver? ensures Cleared(TallyOf((log + [e])[..i])) {
      assert (log + [e])[..i] == log[..i];
      assert log[..|log|] == log;
    }
  }

  /** Agents that want to enter, by executing or by probing, and a world that lets them. */
  function Willing(entering: Action): Answer {
    Reply(Some(entering), true, Passes, true, Accepted)
  }

  predicate OnTheWayIn(s: State) {
    && !s.stale && !s.validationFailed && !s.commandId
    && match s.node
       case ValidateProposal => s.proposal
       case SubmitCommand => s.proposal
       case EntryTactician => true
       case Open(_) => true
       case Debate => true
       case MetaDecision => true
       case _ => false
  }

  predicate InOrOnTheWay(s: State, t: Tally) {
    OnTheWayIn(s) || ((s.node.Persist? || s.node.End?) && s.commandId && t.handovers == 1)
  }

  lemma WillingStep(c: Config, s: State, t: Tally, entering: Action)
    requires Knows(s, t) && InOrOnTheWay(s, t) && entering in {Execute, Probe}
    ensures InOrOnTheWay(Step(c, s, Willing(entering)), NotedIf(t, Seen(c, s, Willing(entering))))
  {
  }

  lemma {:induction false} WillingGoesIn(c: Config, oracle: nat -> Answer, n: nat, entering: Action)
    requires Always(oracle, Willing(entering)) && entering in {Execute, Probe}
    ensures InOrOnTheWay(Run(c, oracle, n), TallyOf(Log(c, oracle, n)))
  {
    if n > 0 {
      WillingGoesIn(c, oracle, n - 1, entering);
      RunKnows(c, oracle, n - 1);
      var s, t := Run(c, oracle, n - 1), TallyOf(Log(c, oracle, n - 1));
      WillingStep(c, s, t, entering);
      assert Run(c, oracle, n) == Step(c, s, Willing(entering));
      assert TallyOf(Log(c, oracle, n)) == NotedIf(t, Seen(c, s, Willing(entering))) by {
        TallyOfLog(c, oracle, n);
      }
    }
  }

  /** The gate does open, for either entering decision: agents that want in make exactly one submission. */
  lemma GateOpens(c: Config, oracle: nat -> Answer, entering: Action)
    requires Always(oracle, Willing(entering)) && entering in {Execute, Probe}
    ensures Run(c, oracle, Longest(c)).node.End?
    ensures TallyOf(Log(c, oracle, Longest(c))).handovers == 1
  {
    EveryRunEnds(c, oracle, Longest(c));
    WillingGoesIn(c, oracle, Longest(c), entering);
  }

  // ---------------------------------------------------------------- the published outcome

  predicate OneAnnouncement(c: Config, s: State, log: seq<Event>) {
    if s.node.End? && c.hasEventBus then
      && log != [] && log[|log| - 1] == Published(OutcomeOf(TallyOf(log)))
      && forall i :: 0 <= i < |log| - 1 ==> !log[i].Published?
    else forall i :: 0 <= i < |log| ==> !log[i].Published?
  }

  lemma PublishingIsEnding(c: Config, s: State, a: Answer, t: Tally)
    requires Knows(s, t) && !Finished(s)
    ensures Step(c, s, a).node.End? && c.hasEventBus ==> Seen(c, s, a) == Some(Published(OutcomeOf(t)))
    ensures !(Step(c, s, a).node.End? && c.hasEventBus) ==> Seen(c, s, a).None? || !Seen(c, s, a).value.Published?
  {
  }

  lemma AnnouncementStep(c: Config, s: State, next: State, before: seq<Event>, seen: Option<Event>)
    requires OneAnnouncement(c, s, before) && !s.node.End?
    requires next.node.End? && c.hasEventBus ==> seen == Some(Published(OutcomeOf(TallyOf(before))))
    requires !(next.node.End? && c.hasEventBus) ==> seen.None? || !seen.value.Published?
    ensures OneAnnouncement(c, next, if seen.Some? then before + [seen.value] else before)
  {
    if seen.Some? {
      var log := before + [seen.value];
      assert log[..|log| - 1] == before;
    }
  }

  /**
   With an event bus attached, a run that ends is announced exactly once, last of all, and under
   the outcome that happened; without one nothing is ever announced.
   */
  lemma {:induction false} OutcomeIsWhatHappened(c: Config, oracle: nat -> Answer, n: nat)
    ensures OneAnnouncement(c, Run(c, oracle, n), Log(c, oracle, n))
  {
    if n > 0 {
      OutcomeIsWhatHappened(c, oracle, n - 1);
      RunKnows(c, oracle, n - 1);
      var s, before, a := Run(c, oracle, n - 1), Log(c, oracle, n - 1), oracle(n - 1);
      if !Finished(s) {
        PublishingIsEnding(c, s, a, TallyOf(before));
        AnnouncementStep(c, s, Step(c, s, a), before, Seen(c, s, a));
      }
    }
  }

  // ---------------------------------------------------------------- how a run goes, visit by visit

  /** The nodes that run once, in their order. */
  const OPENING := [ValidateTrigger, HydrateContext, Perception, SynthesiseWorldModel, Discovery, Strategy,
                    SelectDebateCandidates]

  /** Unless a node raises, the opening nodes run once each in their order, then the first debate, then the decision. */
  lemma OpeningInOrder(c: Config, oracle: nat -> Answer, n: nat)
    requires n <= 8 && forall i: nat :: i < n ==> oracle(i).Reply?
    ensures Run(c, oracle, n).node == if n < 7 then Open(OPENING[n]) else if n == 7 then Debate else MetaDecision
  {
    if n > 0 {
      OpeningInOrder(c, oracle, n - 1);
    }
  }

  /** The visit ends the run at once: the node raises, or the gateway explodes on the command handed over. */
  predicate BlowsUp(c: Config, oracle: nat -> Answer, n: nat) {
    var s, a := Run(c, oracle, n), oracle(n);
    && !Finished(s)
    && (a.Raise? || (s.node.SubmitCommand? && a.gate.Explodes? && HandsOver(s, a)))
  }

  ghost predicate BlewUp(c: Config, oracle: nat -> Answer, n: nat) {
    exists i: nat :: i < n && BlowsUp(c, oracle, i)
  }

  lemma BlewUpNext(c: Config, oracle: nat -> Answer, n: nat)
    ensures BlewUp(c, oracle, n + 1) <==> BlewUp(c, oracle, n) || BlowsUp(c, oracle, n)
  {
  }

  lemma AbortStep(c: Config, oracle: nat -> Answer, n: nat)
    ensures Run(c, oracle, n + 1).node.Aborted? <==> Run(c, oracle, n).node.Aborted? || BlowsUp(c, oracle, n)
  {
  }

  /** A run is aborted exactly when some visit blew up. */
  lemma {:induction false} AbortsExactly(c: Config, oracle: nat -> Answer, n: nat)
    ensures Run(c, oracle, n).node.Aborted? <==> BlewUp(c, oracle, n)
  {
    if n > 0 {
      AbortsExactly(c, oracle, n - 1);
      AbortStep(c, oracle, n - 1);
      BlewUpNext(c, oracle, n - 1);
    }
  }

  /** A visit of the tactician that proposes an entry. */
  predicate ProposesAt(c: Config, oracle: nat -> Answer, n: nat) {
    Run(c, oracle, n).node.EntryTactician? && oracle(n).Reply? && oracle(n).proposes
  }

  ghost predicate Proposed(c: Config, oracle: nat -> Answer, n: nat) {
    exists i: nat :: i < n && ProposesAt(c, oracle, i)
  }

  lemma ProposedNext(c: Config, oracle: nat -> Answer, n: nat)
    ensures Proposed(c, oracle, n + 1) <==> Proposed(c, oracle, n) || ProposesAt(c, oracle, n)
  {
  }

  lemma {:induction false} ProposalIsKept(c: Config, oracle: nat -> Answer, n: nat)
    ensures Run(c, oracle, n).proposal <==> Proposed(c, oracle, n)
    ensures Run(c, oracle, n).commandId ==> Run(c, oracle, n).node in {Persist(Completed), End, Aborted}
  {
    if n > 0 {
      ProposalIsKept(c, oracle, n - 1);
      ProposalStep(c, Run(c, oracle, n - 1), oracle(n - 1));
      ProposedNext(c, oracle, n - 1);
    }
  }

  lemma ProposalStep(c: Config, s: State, a: Answer)
    ensures Step(c, s, a).proposal <==> s.proposal || (s.node.EntryTactician? && a.Reply? && a.proposes)
    ensures (s.commandId ==> s.node in {Persist(Completed), End, Aborted}) && Step(c, s, a).commandId ==>
      Step(c, s, a).node in {Persist(Completed), End, Aborted}
  {
  }

  /**
   A command is handed over exactly when the submit node runs with a proposal, the second validation
   passes and there is somewhere to send it; and it is reported as the gateway took it.
   */
  lemma HandsOverExactly(c: Config, oracle: nat -> Answer, n: nat, accepted: bool)
    ensures Seen(c, Run(c, oracle, n), oracle(n)) == Some(HandedOver(accepted)) <==>
      && Run(c, oracle, n).node.SubmitCommand? && oracle(n).Reply? && Proposed(c, oracle, n)
      && oracle(n).recheckPasses && oracle(n).gate in {Blocked, Accepted, Explodes}
      && accepted == (oracle(n).gate == Accepted)
  {
    ProposalIsKept(c, oracle, n);
  }

  /** The run carries a command id exactly when a command handed over was accepted. */
  lemma {:induction false} CommandIdExactly(c: Config, oracle: nat -> Answer, n: nat)
    ensures Run(c, oracle, n).commandId <==> HandedOver(true) in Log(c, oracle, n)
  {
    if n > 0 {
      CommandIdExactly(c, oracle, n - 1);
      CommandStep(c, Run(c, oracle, n - 1), oracle(n - 1));
    }
  }

  lemma CommandStep(c: Config, s: State, a: Answer)
    ensures Step(c, s, a).commandId <==> s.commandId || Seen(c, s, a) == Some(HandedOver(true))
  {
  }

  /** Validation leads to the submit node exactly when nothing was proposed or the proposal passes. */
  lemma ValidationRoutesExactly(c: Config, oracle: nat -> Answer, n: nat)
    requires Run(c, oracle, n).node.ValidateProposal? && oracle(n).Reply?
    ensures Run(c, oracle, n + 1).node ==
      if !Proposed(c, oracle, n) || oracle(n).verdict == Passes then SubmitCommand
      else if oracle(n).verdict == FoundStale then Persist(WentStale)
      else Persist(Completed)
  {
    ProposalIsKept(c, oracle, n);
    RunKnows(c, oracle, n);
  }

  /** Where each decision leads, within the settings; a decision is the last one made, and may be missing. */
  lemma DecisionRoutesExactly(c: Config, oracle: nat -> Answer, n: nat)
    requires Run(c, oracle, n).node.MetaDecision? && oracle(n).Reply?
    ensures var t := TallyOf(Log(c, oracle, n + 1));
      Run(c, oracle, n + 1).node == match t.decision
        case None => Persist(Completed)
        case Some(Execute) => EntryTactician
        case Some(Probe) => EntryTactician
        case Some(Delay) => Persist(Delayed)
        case Some(RequestMoreEvidence) => Persist(EvidenceRequested)
        case Some(SwitchStrategy) => if t.revisions < c.maxSwitches then StrategySwitchRevision else Persist(Completed)
        case Some(OtherAction) => Persist(Completed)
  {
    RunKnows(c, oracle, n);
    RunKnows(c, oracle, n + 1);
    RunAccounts(c, oracle, n);
    TallyOfLog(c, oracle, n + 1);
  }
}
