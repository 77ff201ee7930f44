/**
 The model router (joker/models/router.py): schema-repair retries and one-way
 escalation as mutual recursion, with durable reuse of completed calls.
 */
module Router {
  import opened Options
  import opened CallRecords

  const REMOTE := "remote_escalation"

  datatype Request = Request(
    requestId: nat,
    key: string,
    role: string,
    roleIsKnown: bool,
    profile: string,
    wantsEscalation: bool,
    inventorProfile: Option<string>)

  /** What one provider call does. `Crash` is any exception the router does not handle. */
  datatype Answer =
    | Success(requestId: nat, provider: string, model: string, output: nat)
    | SchemaFailure
    | ProviderFailure
    | Crash

  datatype ModelResult = ModelResult(requestId: nat, output: nat, attempts: int, escalatedFrom: Option<string>)

  datatype Error = BadSchema | ProviderError | Crashed | BadConfiguration

  datatype Outcome = Done(result: ModelResult) | Raised(error: Error)

  datatype Routing = Routing(profile: string, reason: string, degraded: bool)

  /** Everything the router cannot know: one answer per provider call, one health per store access. */
  datatype World = World(
    answers: nat -> Answer,
    healthy: nat -> bool,
    profiles: map<string, bool>,
    resolves: string -> bool,
    dump: nat -> string,
    parse: string -> Option<nat>)

  datatype Limits = Limits(maxRepairs: int, maxEscalations: int)

  const CRITICS := {
    "strategy_advocate", "falsifier", "historical_critic", "execution_critic", "alternative_explanation"
  }
  const DEEP_LOCALS := {"meta_decision", "entry_tactician", "order_manager", "position_thesis", "position_decision"}
  const FAST := {"anomaly", "temporal_context"}

  /** The profile a request runs on; no result when the deep-local profile is not configured at all. */
  function SelectProfile(w: World, r: Request, force: string, escalate: bool): Option<Routing> {
    if force != "" then Some(Routing(force, "forced_profile", false))
    else if escalate || r.wantsEscalation then Some(Routing(REMOTE, "explicit_escalation", false))
    else if r.profile in w.profiles then Some(Routing(r.profile, "request_profile_override", false))
    else if r.role in CRITICS then
      Some(Routing("independent_critic", "critic_independence",
                   r.inventorProfile.GetOr("general_reasoning") == "independent_critic"))
    else if r.role in DEEP_LOCALS then
      if "deep_local" !in w.profiles then None
      else if w.profiles["deep_local"] then Some(Routing("deep_local", "deep_local_arbitration", false))
      else Some(Routing("general_reasoning", "deep_local_disabled", false))
    else if r.role in FAST then Some(Routing("fast_structured", "fast_extraction", false))
    else Some(Routing("general_reasoning", GeneralReason(r.role), false))
  }

  const INVENTORS := {"bullish_inventor", "bearish_inventor", "neutral_advocate"}

  function GeneralReason(role: string): string {
    if role in INVENTORS || "pattern_" <= role || (|role| >= 8 && role[|role| - 8..] == "_analyst")
    then "general_reasoning" else "default_general_reasoning"
  }

  // ---------------------------------------------------------------- which profile

  /** The profile each role is meant for; every other role reasons in general. */
  const ROLE_PROFILES := map[
    "anomaly" := "fast_structured", "temporal_context" := "fast_structured",
    "strategy_advocate" := "independent_critic", "falsifier" := "independent_critic",
    "historical_critic" := "independent_critic", "execution_critic" := "independent_critic",
    "alternative_explanation" := "independent_critic",
    "meta_decision" := "deep_local", "entry_tactician" := "deep_local", "order_manager" := "deep_local",
    "position_thesis" := "deep_local", "position_decision" := "deep_local"]

  function MeantFor(role: string): string {
    if role in ROLE_PROFILES then ROLE_PROFILES[role] else "general_reasoning"
  }

  predicate LeftToRole(w: World, r: Request, force: string, escalate: bool) {
    force == "" && !escalate && !r.wantsEscalation && r.profile !in w.profiles
  }

  /** A forced profile wins over escalation, that over the request's own configured profile, and that over the role. */
  lemma ProfilePrecedence(w: World, r: Request, force: string, escalate: bool)
    ensures var chosen := SelectProfile(w, r, force, escalate);
      && (!LeftToRole(w, r, force, escalate) ==> chosen.Some? && !chosen.value.degraded)
      && (force != "" ==> chosen.value.profile == force && chosen.value.reason == "forced_profile")
      && (force == "" && (escalate || r.wantsEscalation) ==>
            chosen.value.profile == "remote_escalation" && chosen.value.reason == "explicit_escalation")
      && (force == "" && !escalate && !r.wantsEscalation && r.profile in w.profiles ==>
            chosen.value.profile == r.profile && chosen.value.reason == "request_profile_override")
  {
  }

  /**
   Left to its role, a request runs on the profile the role is meant for. A role of the deep local
   profile falls back to general reasoning where that profile is disabled, and fails where it is not configured.
   */
  lemma RoleProfileExactly(w: World, r: Request)
    requires LeftToRole(w, r, "", false)
    ensures var chosen, meant := SelectProfile(w, r, "", false), MeantFor(r.role);
      && (chosen.None? <==> meant == "deep_local" && meant !in w.profiles)
      && (chosen.Some? ==>
            chosen.value.profile == if meant == "deep_local" && !w.profiles[meant] then "general_reasoning" else meant)
  {
  }

  /** The profile the thesis under criticism was invented on. */
  function InventedOn(r: Request): string {
    if r.inventorProfile.Some? then r.inventorProfile.value else "general_reasoning"
  }

  /** Independence is reported as degraded exactly when a critic is left to criticise on the inventor's own profile. */
  lemma CriticIndependenceExactly(w: World, r: Request, force: string, escalate: bool)
    requires SelectProfile(w, r, force, escalate).Some?
    ensures var chosen := SelectProfile(w, r, force, escalate).value;
      chosen.degraded <==>
        && LeftToRole(w, r, force, escalate) && MeantFor(r.role) == "independent_critic"
        && chosen.profile == InventedOn(r)
  {
  }

  /** The reason noted with a choice left to the role. */
  lemma RoleReasonExactly(w: World, r: Request)
    requires LeftToRole(w, r, "", false) && SelectProfile(w, r, "", false).Some?
    ensures SelectProfile(w, r, "", false).value.reason ==
      match MeantFor(r.role)
      case "independent_critic" => "critic_independence"
      case "fast_structured" => "fast_extraction"
      case "deep_local" => if w.profiles["deep_local"] then "deep_local_arbitration" else "deep_local_disabled"
      case _ => GeneralReason(r.role)
  {
  }

  /** The roles that are known to reason in general: inventors, pattern agents and analysts. */
  ghost predicate KnownToReason(role: string) {
    || role in {"bullish_inventor", "bearish_inventor", "neutral_advocate"}
    || (exists rest :: role == "pattern_" + rest) || (exists start :: role == start + "_analyst")
  }

  lemma GeneralReasonExactly(role: string)
    ensures GeneralReason(role) == if KnownToReason(role) then "general_reasoning" else "default_general_reasoning"
  {
    PrefixExactly(role, "pattern_");
    SuffixExactly(role, "_analyst");
  }

  lemma PrefixExactly(text: string, part: string)
    ensures part <= text <==> exists rest :: text == part + rest
  {
    if part <= text {
      assert text == part + text[|part|..];
    }
  }

  lemma SuffixExactly(text: string, part: string)
    ensures (|text| >= |part| && text[|text| - |part|..] == part) <==> exists start :: text == start + part
  {
    if |text| >= |part| && text[|text| - |part|..] == part {
      assert text == text[..|text| - |part|] + part;
    }
    if start :| text == start + part {
      assert text[|start|..] == part;
    }
  }

  // ---------------------------------------------------------------- what a call should come to

  /** How many calls one profile gets: it repeats on bad schemas only, and never past its budget. */
  function Settle(w: World, from: nat, budget: nat): (calls: nat)
    requires budget > 0
    ensures 1 <= calls <= budget
    ensures forall i :: from <= i < from + calls - 1 ==> w.answers(i).SchemaFailure?
    ensures calls < budget ==> !w.answers(from + calls - 1).SchemaFailure?
    decreases budget
  {
    if budget == 1 || !w.answers(from).SchemaFailure? then 1 else 1 + Settle(w, from + 1, budget - 1)
  }

  /** What a call comes to, how many provider calls it costs and whether it escalated. */
  datatype Expectation = Expectation(outcome: Outcome, calls: nat, escalated: bool)

  function Budget(l: Limits): nat {
    if l.maxRepairs > 0 then l.maxRepairs + 1 else 1
  }

  predicate MayEscalate(l: Limits, profile: string, escalations: nat) {
    profile != REMOTE && escalations < l.maxEscalations
  }

  function Failure(a: Answer): Error {
    match a
    case SchemaFailure => BadSchema
    case ProviderFailure => ProviderError
    case _ => Crashed
  }

  function Finish(a: Answer, attempts: int, escalatedFrom: Option<string>): Outcome {
    match a
    case Success(id, _, _, output) => Done(ModelResult(id, output, attempts, escalatedFrom))
    case _ => Raised(Failure(a))
  }

  /** The remote phase: no further escalation is possible there. */
  function ExpectedRemotely(w: World, l: Limits, from: nat, escalations: nat, escalatedFrom: Option<string>)
    : Expectation
  {
    if !w.resolves(REMOTE) then Expectation(Raised(BadConfiguration), 0, false)
    else
      var m := Settle(w, from, Budget(l));
      Expectation(Finish(w.answers(from + m - 1), m + escalations, escalatedFrom), m, false)
  }

  /**
   The reference: at most two phases, a local one and a remote one, each as long as
   `Settle` says. No recursion between the two is left.
   */
  function Expected(w: World, l: Limits, from: nat, profile: string, escalations: nat, repairs: nat,
                    escalatedFrom: Option<string>): Expectation
    requires repairs < Budget(l)
  {
    if !w.resolves(profile) then Expectation(Raised(BadConfiguration), 0, false)
    else
      var m := Settle(w, from, Budget(l) - repairs);
      var last := w.answers(from + m - 1);
      if (last.SchemaFailure? || last.ProviderFailure?) && MayEscalate(l, profile, escalations) then
        var remote := ExpectedRemotely(w, l, from + m, escalations + 1, Some(profile));
        Expectation(remote.outcome, m + remote.calls, true)
      else Expectation(Finish(last, repairs + m + escalations, escalatedFrom), m, false)
  }

  /** A repair moves the reference one call further and changes nothing else. */
  lemma ExpectedAfterRepair(w: World, l: Limits, from: nat, profile: string, escalations: nat, repairs: nat,
                            escalatedFrom: Option<string>)
    requires repairs + 1 < Budget(l) && w.resolves(profile) && w.answers(from).SchemaFailure?
    ensures var e := Expected(w, l, from, profile, escalations, repairs, escalatedFrom);
            var next := Expected(w, l, from + 1, profile, escalations, repairs + 1, escalatedFrom);
            e == next.(calls := 1 + next.calls)
  {
    var b := Budget(l) - repairs;
    assert Settle(w, from, b) == 1 + Settle(w, from + 1, b - 1);
  }

  /** The reference for an answer that is not repaired, with `next` the index of the call after it. */
  function Concluded(w: World, l: Limits, a: Answer, next: nat, profile: string, escalations: nat, attempts: int,
                     escalatedFrom: Option<string>): Expectation {
    if (a.SchemaFailure? || a.ProviderFailure?) && MayEscalate(l, profile, escalations) then
      var remote := ExpectedRemotely(w, l, next, escalations + 1, Some(profile));
      Expectation(remote.outcome, 1 + remote.calls, true)
    else Expectation(Finish(a, attempts, escalatedFrom), 1, false)
  }

  lemma ExpectedWhenSettled(w: World, l: Limits, from: nat, profile: string, escalations: nat, repairs: nat,
                            escalatedFrom: Option<string>)
    requires repairs < Budget(l) && w.resolves(profile)
    requires w.answers(from).SchemaFailure? ==> repairs + 1 == Budget(l)
    ensures Settle(w, from, Budget(l) - repairs) == 1
    ensures Expected(w, l, from, profile, escalations, repairs, escalatedFrom)
         == Concluded(w, l, w.answers(from), from + 1, profile, escalations, repairs + escalations + 1, escalatedFrom)
  {
  }

  lemma ExpectedOnRemote(w: World, l: Limits, from: nat, escalations: nat, escalatedFrom: Option<string>)
    ensures Expected(w, l, from, REMOTE, escalations, 0, escalatedFrom)
         == ExpectedRemotely(w, l, from, escalations, escalatedFrom)
  {
  }

  /** The most provider calls one request can cost. */
  function CallLimit(l: Limits): nat {
    Budget(l) * if l.maxEscalations > 0 then 2 else 1
  }

  /** The bound in the settings' own terms: repairs plus one, once more if escalation is allowed at all. */
  lemma CallsAreBounded(w: World, l: Limits, from: nat, profile: string)
    ensures Expected(w, l, from, profile, 0, 0, None).calls <= CallLimit(l)
    ensures profile == REMOTE ==> Expected(w, l, from, profile, 0, 0, None).calls <= Budget(l)
  {
  }

  /** Which answer decides: every earlier one was a failure the router retries; it is returned as it is. */
  lemma FirstSettledAnswerDecides(w: World, l: Limits, from: nat, profile: string)
    requires w.resolves(profile)
    ensures var e := Expected(w, l, from, profile, 0, 0, None);
            && e.calls >= 1
            && (forall i :: from <= i < from + e.calls - 1 ==>
                  w.answers(i).SchemaFailure? || w.answers(i).ProviderFailure?)
            && (e.outcome.Done? ==>
                  && w.answers(from + e.calls - 1).Success?
                  && e.outcome.result.output == w.answers(from + e.calls - 1).output)
            && (e.outcome.Raised? ==> !w.answers(from + e.calls - 1).Success?)
  {
  }

  /** A crash is raised at once and is never retried. */
  lemma CrashIsFinal(w: World, l: Limits, from: nat, profile: string, i: nat)
    requires from <= i < from + Expected(w, l, from, profile, 0, 0, None).calls
    requires w.answers(i).Crash?
    ensures i == from + Expected(w, l, from, profile, 0, 0, None).calls - 1
    ensures Expected(w, l, from, profile, 0, 0, None).outcome == Raised(Crashed)
  {
    if !w.resolves(profile) {
      assert false;
    } else {
      FirstSettledAnswerDecides(w, l, from, profile);
    }
  }

  /**
   `attempt_count` is not the number of provider calls made: it starts over on
   escalation. It is exact if and only if the call did not escalate after a repair.
   */
  lemma AttemptCountExactly(w: World, l: Limits, from: nat, profile: string)
    requires Expected(w, l, from, profile, 0, 0, None).outcome.Done?
    ensures var e := Expected(w, l, from, profile, 0, 0, None);
            e.outcome.result.attempts == e.calls <==> !e.escalated || Settle(w, from, Budget(l)) == 1
  {
  }

  /** Every successful request reports as many attempts as it made calls. */
  ghost predicate AttemptsAreCalls(l: Limits, profile: string) {
    forall w: World, from: nat :: AttemptsMatch(w, l, from, profile)
  }

  predicate AttemptsMatch(w: World, l: Limits, from: nat, profile: string) {
    var e := Expected(w, l, from, profile, 0, 0, None);
    e.outcome.Done? ==> e.outcome.result.attempts == e.calls
  }

  /** Text of one more letter than the number says, so that every number can be read back. */
  function Strokes(n: nat): string {
    seq(n + 1, i => 'I')
  }

  function Counted(text: string): Option<nat> {
    if text == "" then None else Some(|text| - 1)
  }

  /** A world in which everything works but the provider, which answers as given. */
  function Sound(answers: nat -> Answer): World {
    World(answers, n => true, map[], profile => true, Strokes, Counted)
  }

  /** A repair that fails, then a success on the remote profile: three calls reported as two attempts. */
  lemma ThreeCallsTwoAttempts(l: Limits, profile: string) returns (w: World)
    requires MayEscalate(l, profile, 0) && Budget(l) > 1
    ensures var e := Expected(w, l, 0, profile, 0, 0, None);
            e.outcome.Done? && e.calls == 3 && e.outcome.result.attempts == 2
  {
    w := Sound(i => if i == 0 then SchemaFailure else if i == 1 then ProviderFailure else Success(0, "", "", 0));
    assert Settle(w, 0, Budget(l)) == 2 by {
      assert Settle(w, 1, Budget(l) - 1) == 1;
    }
    assert Settle(w, 2, Budget(l)) == 1;
  }

  /**
   In the settings' own terms: the attempt count is the number of provider calls in every world
   if and only if the request cannot escalate or schema failures are not repaired.
   */
  lemma AttemptsAreCallsExactly(l: Limits, profile: string)
    ensures AttemptsAreCalls(l, profile) <==> !MayEscalate(l, profile, 0) || Budget(l) == 1
  {
    if MayEscalate(l, profile, 0) && Budget(l) > 1 {
      var w := ThreeCallsTwoAttempts(l, profile);
      assert !AttemptsMatch(w, l, 0, profile);
    } else {
      forall w: World, from: nat ensures AttemptsMatch(w, l, from, profile) {
        if Expected(w, l, from, profile, 0, 0, None).outcome.Done? {
          AttemptCountExactly(w, l, from, profile);
        }
      }
    }
  }

  // ---------------------------------------------------------------- reuse

  /** The stored result a request can be answered with. */
  function Reuse(t: Table, w: World, key: string): Option<ModelResult> {
    if key !in t.index || t.index[key] !in t.rows then None
    else
      var r := t.rows[t.index[key]];
      if !r.status.Completed? || !Truthy(r.output) || w.parse(r.output.value).None? then None
      else Some(ModelResult(r.requestId, w.parse(r.output.value).value, r.attempts, r.escalatedFrom))
  }

  /** A completed call with a readable output is reusable for good, whatever happens to the table later. */
  lemma ReuseIsForever(t: Table, u: Table, w: World, key: string)
    requires Valid(t) && Later(t, u) && Reuse(t, w, key).Some?
    ensures Reuse(u, w, key) == Reuse(t, w, key)
  {
  }

  lemma NothingToReuseAfterStart(t: Table, w: World, key: string, r: Record)
    requires Valid(t) && Reuse(t, w, key).None? && r.status.InProgress?
    ensures Reuse(Applied(t, Append(r)), w, key).None?
  {
  }

  lemma NothingToReuseAfterFailure(t: Table, w: World, key: string, id: nat, error: string)
    requires Valid(t) && Reuse(t, w, key).None?
    ensures Reuse(Applied(t, Fail(id, error)), w, key).None?
  {
  }

  /** The store always answers and providers keep to the request they were given. */
  ghost predicate Dependable(w: World, r: Request) {
    && (forall n: nat :: w.healthy(n))
    && (forall n: nat :: w.answers(n).Success? ==> w.answers(n).requestId == r.requestId)
    && (forall x: nat :: w.dump(x) != "" && w.parse(w.dump(x)) == Some(x))
    && r.roleIsKnown
  }

  /** The status of the row this very request owns. */
  function Own(t: Table, r: Request): Option<Status> {
    if r.key in t.index && t.index[r.key] == r.requestId && r.requestId in t.rows
    then Some(t.rows[r.requestId].status) else None
  }

  predicate Unseen(t: Table, r: Request) {
    r.key !in t.index && r.requestId !in t.rows
  }

  /** This request's row is still to be written or still open. */
  predicate Tracked(t: Table, r: Request) {
    Unseen(t, r) || Own(t, r) == Some(InProgress)
  }

  lemma TrackedIsNotReusable(t: Table, w: World, r: Request)
    requires Tracked(t, r)
    ensures Reuse(t, w, r.key).None?
  {
  }

  lemma FailedStaysFailed(t: Table, u: Table, r: Request)
    requires Valid(t) && Later(t, u) && Own(t, r) == Some(Failed)
    ensures Own(u, r) == Some(Failed)
  {
  }

  // ---------------------------------------------------------------- the run

  datatype Setup = Setup(w: World, limits: Limits, attached: bool)

  /** Where a router stands: its store, its provider calls, its store accesses and its routing log. */
  datatype Standing = Standing(table: Table, calls: nat, accesses: nat, logs: seq<Routing>)

  datatype Ran = Ran(s: Standing, outcome: Outcome)

  const ESCALATION := Routing(REMOTE, "escalation_after_failure", false)

  /** A write to the store; without a store, or when the store fails, nothing is written and nobody is told. */
  function Wrote(x: Setup, s: Standing, op: Operation): Standing {
    if !x.attached then s
    else s.(accesses := s.accesses + 1, table := if x.w.healthy(s.accesses) then Applied(s.table, op) else s.table)
  }

  function Looked(x: Setup, s: Standing): Standing {
    if x.attached then s.(accesses := s.accesses + 1) else s
  }

  function Found(x: Setup, s: Standing, r: Request): Option<ModelResult> {
    if x.attached && x.w.healthy(s.accesses) then Reuse(s.table, x.w, r.key) else None
  }

  function StartOf(r: Request, provider: string, attempts: int, escalatedFrom: Option<string>): Operation {
    Append(Record(r.requestId, r.key, provider, provider, InProgress, attempts, escalatedFrom, None, None))
  }

  /** The standing at the moment of the provider call. */
  function Asked(x: Setup, s: Standing, r: Request, profile: string, attempts: int, escalatedFrom: Option<string>)
    : Standing
  {
    var looked := Looked(x, s);
    var started := if r.roleIsKnown then Wrote(x, looked, StartOf(r, profile, attempts, escalatedFrom)) else looked;
    started.(calls := s.calls + 1)
  }

  function ErrorCode(a: Answer): string {
    if a.SchemaFailure? then "StructuredOutputFailure" else "ModelError"
  }

  function Completing(x: Setup, a: Answer): Operation
    requires a.Success?
  {
    Complete(a.requestId, a.provider, a.model, Some(x.w.dump(a.output)))
  }

  function Attempted(x: Setup, s: Standing, r: Request, profile: string, escalations: nat, repairs: nat,
                     escalatedFrom: Option<string>): Ran
    requires repairs < Budget(x.limits)
    decreases if MayEscalate(x.limits, profile, escalations) then 1 else 0, Budget(x.limits) - repairs, 1
  {
    if !x.w.resolves(profile) then Ran(s, Raised(BadConfiguration))
    else if Found(x, s, r).Some? then Ran(Looked(x, s), Done(Found(x, s, r).value))
    else
      var attempts := repairs + escalations + 1;
      var a, asked := x.w.answers(s.calls), Asked(x, s, r, profile, attempts, escalatedFrom);
      match a
      case SchemaFailure =>
        if repairs < x.limits.maxRepairs then Attempted(x, asked, r, profile, escalations, repairs + 1, escalatedFrom)
        else Escalating(x, Wrote(x, asked, Fail(r.requestId, ErrorCode(a))), r, profile, escalations, BadSchema)
      case ProviderFailure =>
        Escalating(x, Wrote(x, asked, Fail(r.requestId, ErrorCode(a))), r, profile, escalations, ProviderError)
      case Crash => Ran(asked, Raised(Crashed))
      case Success(id, _, _, output) =>
        Ran(Wrote(x, asked, Completing(x, a)), Done(ModelResult(id, output, attempts, escalatedFrom)))
  }

  function Escalating(x: Setup, s: Standing, r: Request, profile: string, escalations: nat, error: Error): Ran
    decreases if MayEscalate(x.limits, profile, escalations) then 1 else 0, 0, 0
  {
    if !MayEscalate(x.limits, profile, escalations) then Ran(s, Raised(error))
    else Attempted(x, s.(logs := s.logs + [ESCALATION]), r, REMOTE, escalations + 1, 0, Some(profile))
  }

  /** One whole request, from profile selection on. */
  function Routed(x: Setup, s: Standing, r: Request, force: string, escalate: bool): Ran {
    var routing := SelectProfile(x.w, r, force, escalate);
    if routing.None? then Ran(s, Raised(BadConfiguration))
    else Attempted(x, s.(logs := s.logs + [routing.value]), r, routing.value.profile, 0, 0, None)
  }

  lemma RepairUnfolds(x: Setup, s: Standing, r: Request, profile: string, escalations: nat, repairs: nat,
                      escalatedFrom: Option<string>)
    requires repairs + 1 < Budget(x.limits) && x.w.resolves(profile) && Found(x, s, r).None?
    requires x.w.answers(s.calls).SchemaFailure?
    ensures Attempted(x, s, r, profile, escalations, repairs, escalatedFrom)
         == Attempted(x, Asked(x, s, r, profile, repairs + escalations + 1, escalatedFrom), r,
                      profile, escalations, repairs + 1, escalatedFrom)
  {
  }

  /** The answers after which no repair is tried. */
  predicate Settled(x: Setup, a: Answer, repairs: nat) {
    a.SchemaFailure? ==> repairs + 1 >= Budget(x.limits)
  }

  lemma FailureUnfolds(x: Setup, s: Standing, r: Request, profile: string, escalations: nat, repairs: nat,
                       escalatedFrom: Option<string>)
    requires repairs < Budget(x.limits) && x.w.resolves(profile) && Found(x, s, r).None?
    requires var a := x.w.answers(s.calls); Settled(x, a, repairs) && (a.SchemaFailure? || a.ProviderFailure?)
    ensures var a, asked := x.w.answers(s.calls), Asked(x, s, r, profile, repairs + escalations + 1, escalatedFrom);
            Attempted(x, s, r, profile, escalations, repairs, escalatedFrom) ==
            Escalating(x, Wrote(x, asked, Fail(r.requestId, ErrorCode(a))), r, profile, escalations, Failure(a))
  {
  }

  lemma AnswerUnfolds(x: Setup, s: Standing, r: Request, profile: string, escalations: nat, repairs: nat,
                      escalatedFrom: Option<string>)
    requires repairs < Budget(x.limits) && x.w.resolves(profile) && Found(x, s, r).None?
    requires var a := x.w.answers(s.calls); a.Crash? || a.Success?
    ensures var a, asked := x.w.answers(s.calls), Asked(x, s, r, profile, repairs + escalations + 1, escalatedFrom);
            Attempted(x, s, r, profile, escalations, repairs, escalatedFrom) ==
            Ran(if a.Success? then Wrote(x, asked, Completing(x, a)) else asked,
                Finish(a, repairs + escalations + 1, escalatedFrom))
  {
  }

  // ---------------------------------------------------------------- what every run keeps

  lemma WroteIsLater(x: Setup, s: Standing, op: Operation)
    requires Valid(s.table)
    ensures Valid(Wrote(x, s, op).table) && Later(s.table, Wrote(x, s, op).table)
  {
    AppliedIsLater(s.table, op);
  }

  lemma LaterTransitive(t: Table, u: Table, v: Table)
    requires Later(t, u) && Later(u, v)
    ensures Later(t, v)
  {
  }

  /** No request, however it goes, takes a completed or failed record back. */
  lemma {:induction false} AttemptedIsLater(x: Setup, s: Standing, r: Request, profile: string, escalations: nat,
                                            repairs: nat, escalatedFrom: Option<string>, t: Ran)
    requires Valid(s.table) && repairs < Budget(x.limits)
    requires t == Attempted(x, s, r, profile, escalations, repairs, escalatedFrom)
    ensures Valid(t.s.table) && Later(s.table, t.s.table)
    decreases if MayEscalate(x.limits, profile, escalations) then 1 else 0, Budget(x.limits) - repairs, 2
  {
    if x.w.resolves(profile) && Found(x, s, r).None? {
      var asked := Asked(x, s, r, profile, repairs + escalations + 1, escalatedFrom);
      AskedIsLater(x, s, r, profile, repairs + escalations + 1, escalatedFrom);
      FromAskedIsLater(x, s, r, profile, escalations, repairs, escalatedFrom, asked, t);
      LaterTransitive(s.table, asked.table, t.s.table);
    } else {
      assert t.s.table == s.table;
    }
  }

  lemma {:induction false} FromAskedIsLater(x: Setup, s: Standing, r: Request, profile: string, escalations: nat,
                                            repairs: nat, escalatedFrom: Option<string>, asked: Standing, t: Ran)
    requires repairs < Budget(x.limits) && x.w.resolves(profile) && Found(x, s, r).None?
    requires asked == Asked(x, s, r, profile, repairs + escalations + 1, escalatedFrom) && Valid(asked.table)
    requires t == Attempted(x, s, r, profile, escalations, repairs, escalatedFrom)
    ensures Valid(t.s.table) && Later(asked.table, t.s.table)
    decreases if MayEscalate(x.limits, profile, escalations) then 1 else 0, Budget(x.limits) - repairs, 1
  {
    if !Settled(x, x.w.answers(s.calls), repairs) {
      RepairUnfolds(x, s, r, profile, escalations, repairs, escalatedFrom);
      AttemptedIsLater(x, asked, r, profile, escalations, repairs + 1, escalatedFrom, t);
    } else {
      SettledIsLater(x, s, r, profile, escalations, repairs, escalatedFrom, asked, t);
    }
  }

  lemma {:induction false} SettledIsLater(x: Setup, s: Standing, r: Request, profile: string, escalations: nat,
                                          repairs: nat, escalatedFrom: Option<string>, asked: Standing, t: Ran)
    requires repairs < Budget(x.limits) && x.w.resolves(profile) && Found(x, s, r).None?
    requires Settled(x, x.w.answers(s.calls), repairs)
    requires asked == Asked(x, s, r, profile, repairs + escalations + 1, escalatedFrom) && Valid(asked.table)
    requires t == Attempted(x, s, r, profile, escalations, repairs, escalatedFrom)
    ensures Valid(t.s.table) && Later(asked.table, t.s.table)
    decreases if MayEscalate(x.limits, profile, escalations) then 1 else 0, 0, 1
  {
    var a := x.w.answers(s.calls);
    if a.SchemaFailure? || a.ProviderFailure? {
      FailureUnfolds(x, s, r, profile, escalations, repairs, escalatedFrom);
      var marked := Wrote(x, asked, Fail(r.requestId, ErrorCode(a)));
      WroteIsLater(x, asked, Fail(r.requestId, ErrorCode(a)));
      EscalatingIsLater(x, marked, r, profile, escalations, Failure(a), t);
      LaterTransitive(asked.table, marked.table, t.s.table);
    } else {
      AnswerUnfolds(x, s, r, profile, escalations, repairs, escalatedFrom);
      AnswerIsLater(x, asked, a);
    }
  }

  lemma AskedIsLater(x: Setup, s: Standing, r: Request, profile: string, attempts: int, escalatedFrom: Option<string>)
    requires Valid(s.table)
    ensures var asked := Asked(x, s, r, profile, attempts, escalatedFrom);
            Valid(asked.table) && Later(s.table, asked.table)
  {
    WroteIsLater(x, Looked(x, s), StartOf(r, profile, attempts, escalatedFrom));
  }

  lemma AnswerIsLater(x: Setup, s: Standing, a: Answer)
    requires Valid(s.table)
    ensures a.Success? ==>
      Valid(Wrote(x, s, Completing(x, a)).table) && Later(s.table, Wrote(x, s, Completing(x, a)).table)
    ensures Later(s.table, s.table)
  {
    if a.Success? {
      WroteIsLater(x, s, Completing(x, a));
    }
  }

  lemma {:induction false} EscalatingIsLater(x: Setup, s: Standing, r: Request, profile: string, escalations: nat,
                                             error: Error, t: Ran)
    requires Valid(s.table) && t == Escalating(x, s, r, profile, escalations, error)
    ensures Valid(t.s.table) && Later(s.table, t.s.table)
    decreases if MayEscalate(x.limits, profile, escalations) then 1 else 0, 0, 0
  {
    if MayEscalate(x.limits, profile, escalations) {
      AttemptedIsLater(x, s.(logs := s.logs + [ESCALATION]), r, REMOTE, escalations + 1, 0, Some(profile), t);
    }
  }

  /** The bound holds whatever the store says and however often it fails. */
  lemma {:induction false} AttemptedIsBounded(x: Setup, s: Standing, r: Request, profile: string, escalations: nat,
                                              repairs: nat, escalatedFrom: Option<string>)
    requires repairs < Budget(x.limits)
    ensures var t := Attempted(x, s, r, profile, escalations, repairs, escalatedFrom).s;
            s.calls <= t.calls <= s.calls + Budget(x.limits) - repairs
                                  + if MayEscalate(x.limits, profile, escalations) then Budget(x.limits) else 0
    decreases if MayEscalate(x.limits, profile, escalations) then 1 else 0, Budget(x.limits) - repairs
  {
    if x.w.resolves(profile) && Found(x, s, r).None? {
      var a, asked := x.w.answers(s.calls), Asked(x, s, r, profile, repairs + escalations + 1, escalatedFrom);
      if a.SchemaFailure? && repairs < x.limits.maxRepairs {
        AttemptedIsBounded(x, asked, r, profile, escalations, repairs + 1, escalatedFrom);
      } else if (a.SchemaFailure? || a.ProviderFailure?) && MayEscalate(x.limits, profile, escalations) {
        var marked := Wrote(x, asked, Fail(r.requestId, ErrorCode(a)));
        var escalated := marked.(logs := marked.logs + [ESCALATION]);
        AttemptedIsBounded(x, escalated, r, REMOTE, escalations + 1, 0, Some(profile));
      }
    }
  }

  /** One request costs at most repairs plus one provider calls, doubled only if escalation is allowed at all. */
  lemma RequestIsBounded(x: Setup, s: Standing, r: Request, force: string, escalate: bool)
    ensures s.calls <= Routed(x, s, r, force, escalate).s.calls <= s.calls + CallLimit(x.limits)
  {
    var routing := SelectProfile(x.w, r, force, escalate);
    if routing.Some? {
      AttemptedIsBounded(x, s.(logs := s.logs + [routing.value]), r, routing.value.profile, 0, 0, None);
    }
  }

  predicate NothingStored(x: Setup, s: Standing, r: Request) {
    !x.attached || Reuse(s.table, x.w, r.key).None?
  }

  lemma NothingStoredWhenAsked(x: Setup, s: Standing, r: Request, profile: string, attempts: int,
                               escalatedFrom: Option<string>)
    requires Valid(s.table) && NothingStored(x, s, r)
    ensures Valid(Asked(x, s, r, profile, attempts, escalatedFrom).table)
    ensures NothingStored(x, Asked(x, s, r, profile, attempts, escalatedFrom), r)
  {
    var start := StartOf(r, profile, attempts, escalatedFrom);
    AppliedIsLater(s.table, start);
    if x.attached {
      NothingToReuseAfterStart(s.table, x.w, r.key, start.record);
    }
  }

  lemma NothingStoredWhenFailed(x: Setup, s: Standing, r: Request, error: string)
    requires Valid(s.table) && NothingStored(x, s, r)
    ensures Valid(Wrote(x, s, Fail(r.requestId, error)).table)
    ensures NothingStored(x, Wrote(x, s, Fail(r.requestId, error)), r)
  {
    AppliedIsLater(s.table, Fail(r.requestId, error));
    if x.attached {
      NothingToReuseAfterFailure(s.table, x.w, r.key, r.requestId, error);
    }
  }

  /** A run from `s` to `t` came out as the two-phase reference says. */
  predicate AsExpected(s: Standing, t: Ran, e: Expectation) {
    && t.outcome == e.outcome
    && t.s.calls == s.calls + e.calls
    && t.s.logs == if e.escalated then s.logs + [ESCALATION] else s.logs
  }

  lemma RepairedAsExpected(x: Setup, s: Standing, r: Request, profile: string, escalations: nat, repairs: nat,
                           escalatedFrom: Option<string>, t: Ran, e: Expectation, asked: Standing, next: Expectation)
    requires repairs + 1 < Budget(x.limits) && x.w.resolves(profile) && Found(x, s, r).None?
    requires x.w.answers(s.calls).SchemaFailure?
    requires t == Attempted(x, s, r, profile, escalations, repairs, escalatedFrom)
    requires e == Expected(x.w, x.limits, s.calls, profile, escalations, repairs, escalatedFrom)
    requires asked == Asked(x, s, r, profile, repairs + escalations + 1, escalatedFrom)
    requires next == Expected(x.w, x.limits, asked.calls, profile, escalations, repairs + 1, escalatedFrom)
    requires AsExpected(asked, Attempted(x, asked, r, profile, escalations, repairs + 1, escalatedFrom), next)
    ensures AsExpected(s, t, e)
  {
    RepairUnfolds(x, s, r, profile, escalations, repairs, escalatedFrom);
    ExpectedAfterRepair(x.w, x.limits, s.calls, profile, escalations, repairs, escalatedFrom);
  }

  /** Where the remote phase starts. */
  function Remote(x: Setup, asked: Standing, r: Request, a: Answer): Standing {
    var marked := Wrote(x, asked, Fail(r.requestId, ErrorCode(a)));
    marked.(logs := marked.logs + [ESCALATION])
  }

  lemma EscalatedAsExpected(x: Setup, s: Standing, r: Request, profile: string, escalations: nat, repairs: nat,
                            escalatedFrom: Option<string>, t: Ran, e: Expectation, remote: Standing, far: Expectation)
    requires repairs < Budget(x.limits) && x.w.resolves(profile) && Found(x, s, r).None?
    requires var a := x.w.answers(s.calls); Settled(x, a, repairs) && (a.SchemaFailure? || a.ProviderFailure?)
    requires MayEscalate(x.limits, profile, escalations)
    requires t == Attempted(x, s, r, profile, escalations, repairs, escalatedFrom)
    requires e == Expected(x.w, x.limits, s.calls, profile, escalations, repairs, escalatedFrom)
    requires remote
      == Remote(x, Asked(x, s, r, profile, repairs + escalations + 1, escalatedFrom), r, x.w.answers(s.calls))
    requires far == Expected(x.w, x.limits, remote.calls, REMOTE, escalations + 1, 0, Some(profile))
    requires AsExpected(remote, Attempted(x, remote, r, REMOTE, escalations + 1, 0, Some(profile)), far)
    ensures AsExpected(s, t, e)
  {
    FailureUnfolds(x, s, r, profile, escalations, repairs, escalatedFrom);
    ExpectedWhenSettled(x.w, x.limits, s.calls, profile, escalations, repairs, escalatedFrom);
    ExpectedOnRemote(x.w, x.limits, remote.calls, escalations + 1, Some(profile));
  }

  lemma FinishedAsExpected(x: Setup, s: Standing, r: Request, profile: string, escalations: nat, repairs: nat,
                           escalatedFrom: Option<string>, t: Ran, e: Expectation)
    requires repairs < Budget(x.limits) && x.w.resolves(profile) && Found(x, s, r).None?
    requires Settled(x, x.w.answers(s.calls), repairs)
    requires var a := x.w.answers(s.calls); a.Crash? || a.Success? || !MayEscalate(x.limits, profile, escalations)
    requires t == Attempted(x, s, r, profile, escalations, repairs, escalatedFrom)
    requires e == Expected(x.w, x.limits, s.calls, profile, escalations, repairs, escalatedFrom)
    ensures AsExpected(s, t, e)
  {
    ExpectedWhenSettled(x.w, x.limits, s.calls, profile, escalations, repairs, escalatedFrom);
    var a := x.w.answers(s.calls);
    if a.Crash? || a.Success? {
      AnswerUnfolds(x, s, r, profile, escalations, repairs, escalatedFrom);
    } else {
      FailureUnfolds(x, s, r, profile, escalations, repairs, escalatedFrom);
    }
  }

  lemma UnresolvedAsExpected(x: Setup, s: Standing, r: Request, profile: string, escalations: nat, repairs: nat,
                             escalatedFrom: Option<string>, t: Ran, e: Expectation)
    requires repairs < Budget(x.limits) && !x.w.resolves(profile)
    requires t == Attempted(x, s, r, profile, escalations, repairs, escalatedFrom)
    requires e == Expected(x.w, x.limits, s.calls, profile, escalations, repairs, escalatedFrom)
    ensures AsExpected(s, t, e)
  {
  }

  lemma {:induction false} RanAsExpected(x: Setup, s: Standing, r: Request, profile: string, escalations: nat,
                                         repairs: nat, escalatedFrom: Option<string>, t: Ran, e: Expectation)
    requires Valid(s.table) && repairs < Budget(x.limits) && NothingStored(x, s, r)
    requires t == Attempted(x, s, r, profile, escalations, repairs, escalatedFrom)
    requires e == Expected(x.w, x.limits, s.calls, profile, escalations, repairs, escalatedFrom)
    ensures AsExpected(s, t, e)
    decreases if MayEscalate(x.limits, profile, escalations) then 1 else 0, Budget(x.limits) - repairs, 1
  {
    if !x.w.resolves(profile) {
      UnresolvedAsExpected(x, s, r, profile, escalations, repairs, escalatedFrom, t, e);
    } else {
      var a, asked := x.w.answers(s.calls), Asked(x, s, r, profile, repairs + escalations + 1, escalatedFrom);
      NothingStoredWhenAsked(x, s, r, profile, repairs + escalations + 1, escalatedFrom);
      if !Settled(x, a, repairs) {
        RepairingAsExpected(x, s, r, profile, escalations, repairs, escalatedFrom, t, e, asked);
      } else if a.Crash? || a.Success? || !MayEscalate(x.limits, profile, escalations) {
        FinishedAsExpected(x, s, r, profile, escalations, repairs, escalatedFrom, t, e);
      } else {
        NothingStoredWhenFailed(x, asked, r, ErrorCode(a));
        EscalatingAsExpected(x, s, r, profile, escalations, repairs, escalatedFrom, t, e, Remote(x, asked, r, a));
      }
    }
  }

  lemma {:induction false} RepairingAsExpected(x: Setup, s: Standing, r: Request, profile: string, escalations: nat,
                                               repairs: nat, escalatedFrom: Option<string>, t: Ran, e: Expectation,
                                               asked: Standing)
    requires repairs + 1 < Budget(x.limits) && x.w.resolves(profile) && Found(x, s, r).None?
    requires x.w.answers(s.calls).SchemaFailure?
    requires asked == Asked(x, s, r, profile, repairs + escalations + 1, escalatedFrom)
    requires Valid(asked.table) && NothingStored(x, asked, r)
    requires t == Attempted(x, s, r, profile, escalations, repairs, escalatedFrom)
    requires e == Expected(x.w, x.limits, s.calls, profile, escalations, repairs, escalatedFrom)
    ensures AsExpected(s, t, e)
    decreases if MayEscalate(x.limits, profile, escalations) then 1 else 0, Budget(x.limits) - repairs, 0
  {
    var after, next := Attempted(x, asked, r, profile, escalations, repairs + 1, escalatedFrom),
      Expected(x.w, x.limits, asked.calls, profile, escalations, repairs + 1, escalatedFrom);
    RanAsExpected(x, asked, r, profile, escalations, repairs + 1, escalatedFrom, after, next);
    RepairedAsExpected(x, s, r, profile, escalations, repairs, escalatedFrom, t, e, asked, next);
  }

  lemma {:induction false} EscalatingAsExpected(x: Setup, s: Standing, r: Request, profile: string, escalations: nat,
                                                repairs: nat, escalatedFrom: Option<string>, t: Ran, e: Expectation,
                                                remote: Standing)
    requires repairs < Budget(x.limits) && x.w.resolves(profile) && Found(x, s, r).None?
    requires var a := x.w.answers(s.calls); Settled(x, a, repairs) && (a.SchemaFailure? || a.ProviderFailure?)
    requires MayEscalate(x.limits, profile, escalations)
    requires remote ==
      Remote(x, Asked(x, s, r, profile, repairs + escalations + 1, escalatedFrom), r, x.w.answers(s.calls))
    requires Valid(remote.table) && NothingStored(x, remote, r)
    requires t == Attempted(x, s, r, profile, escalations, repairs, escalatedFrom)
    requires e == Expected(x.w, x.limits, s.calls, profile, escalations, repairs, escalatedFrom)
    ensures AsExpected(s, t, e)
    decreases 1, Budget(x.limits) - repairs, 0
  {
    var after, far := Attempted(x, remote, r, REMOTE, escalations + 1, 0, Some(profile)),
      Expected(x.w, x.limits, remote.calls, REMOTE, escalations + 1, 0, Some(profile));
    RanAsExpected(x, remote, r, REMOTE, escalations + 1, 0, Some(profile), after, far);
    EscalatedAsExpected(x, s, r, profile, escalations, repairs, escalatedFrom, t, e, remote, far);
  }

  /** The mutual recursion is the two-phase reference, for every world, setting and fault of the store. */
  lemma AttemptedAsExpected(x: Setup, s: Standing, r: Request, profile: string, escalations: nat, repairs: nat,
                            escalatedFrom: Option<string>)
    requires Valid(s.table) && repairs < Budget(x.limits) && NothingStored(x, s, r)
    ensures AsExpected(s, Attempted(x, s, r, profile, escalations, repairs, escalatedFrom),
                       Expected(x.w, x.limits, s.calls, profile, escalations, repairs, escalatedFrom))
  {
    RanAsExpected(x, s, r, profile, escalations, repairs, escalatedFrom,
                  Attempted(x, s, r, profile, escalations, repairs, escalatedFrom),
                  Expected(x.w, x.limits, s.calls, profile, escalations, repairs, escalatedFrom));
  }

  // ---------------------------------------------------------------- what is left on record

  /** How a request's row began: its attempt count and origin are written once and never again. */
  datatype Origin = Origin(attempts: int, escalatedFrom: Option<string>)

  /** The origin its row has, or will get from the next call. */
  function OriginOf(t: Table, r: Request, attempts: int, escalatedFrom: Option<string>): Origin {
    if Own(t, r).Some? then Origin(t.rows[r.requestId].attempts, t.rows[r.requestId].escalatedFrom)
    else Origin(attempts, escalatedFrom)
  }

  function ErrorName(error: Error): string {
    match error
    case BadSchema => "StructuredOutputFailure"
    case _ => "ModelError"
  }

  /**
   What is on record once a tracked request is over: its result, under the attempt count its row
   began with; a failure under its name; or, where the provider crashed, a call still in progress.
   */
  predicate Recorded(t: Table, w: World, r: Request, e: Expectation, origin: Origin) {
    && (e.outcome.Done? && !e.escalated ==>
          Reuse(t, w, r.key)
            == Some(ModelResult(r.requestId, e.outcome.result.output, origin.attempts, origin.escalatedFrom)))
    && (e.escalated ==> Own(t, r) == Some(Failed))
    && (!e.escalated && e.outcome.Raised? ==>
          match e.outcome.error
          case BadConfiguration => true
          case Crashed => Own(t, r) == Some(InProgress)
          case error => Own(t, r) == Some(Failed) && t.rows[r.requestId].error == Some(ErrorName(error)))
  }

  lemma OpenWhenAsked(x: Setup, s: Standing, r: Request, profile: string, attempts: int, escalatedFrom: Option<string>)
    requires Valid(s.table) && Tracked(s.table, r) && x.attached && Dependable(x.w, r)
    ensures Valid(Asked(x, s, r, profile, attempts, escalatedFrom).table)
    ensures Own(Asked(x, s, r, profile, attempts, escalatedFrom).table, r) == Some(InProgress)
    ensures forall n, from ::
      OriginOf(Asked(x, s, r, profile, attempts, escalatedFrom).table, r, n, from)
        == OriginOf(s.table, r, attempts, escalatedFrom)
  {
    AppliedIsLater(s.table, StartOf(r, profile, attempts, escalatedFrom));
  }

  lemma FailedWhenMarked(x: Setup, s: Standing, r: Request, error: string)
    requires Valid(s.table) && Own(s.table, r) == Some(InProgress) && x.attached && Dependable(x.w, r)
    ensures Own(Wrote(x, s, Fail(r.requestId, error)).table, r) == Some(Failed)
    ensures Wrote(x, s, Fail(r.requestId, error)).table.rows[r.requestId].error == Some(error)
  {
  }

  lemma ReusableWhenCompleted(x: Setup, s: Standing, r: Request, a: Answer)
    requires Valid(s.table) && Own(s.table, r) == Some(InProgress) && x.attached && Dependable(x.w, r)
    requires a.Success? && a.requestId == r.requestId
    ensures var t, origin := Wrote(x, s, Completing(x, a)).table, OriginOf(s.table, r, 0, None);
            Reuse(t, x.w, r.key) == Some(ModelResult(r.requestId, a.output, origin.attempts, origin.escalatedFrom))
  {
  }

  lemma AnswerIsRecorded(x: Setup, s: Standing, r: Request, profile: string, escalations: nat, repairs: nat,
                         escalatedFrom: Option<string>, asked: Standing)
    requires repairs < Budget(x.limits) && x.w.resolves(profile) && Found(x, s, r).None?
    requires x.attached && Dependable(x.w, r) && Valid(asked.table) && Own(asked.table, r) == Some(InProgress)
    requires asked == Asked(x, s, r, profile, repairs + escalations + 1, escalatedFrom)
    requires var a := x.w.answers(s.calls); a.Crash? || a.Success?
    ensures Recorded(Attempted(x, s, r, profile, escalations, repairs, escalatedFrom).s.table, x.w, r,
                     Expected(x.w, x.limits, s.calls, profile, escalations, repairs, escalatedFrom),
                     OriginOf(asked.table, r, 0, None))
  {
    AnswerUnfolds(x, s, r, profile, escalations, repairs, escalatedFrom);
    ExpectedWhenSettled(x.w, x.limits, s.calls, profile, escalations, repairs, escalatedFrom);
    var a := x.w.answers(s.calls);
    if a.Success? {
      ReusableWhenCompleted(x, asked, r, a);
    }
  }

  lemma FailureIsRecorded(x: Setup, s: Standing, r: Request, profile: string, escalations: nat, repairs: nat,
                          escalatedFrom: Option<string>, asked: Standing, origin: Origin)
    requires repairs < Budget(x.limits) && x.w.resolves(profile) && Found(x, s, r).None?
    requires x.attached && Dependable(x.w, r) && Valid(asked.table) && Own(asked.table, r) == Some(InProgress)
    requires asked == Asked(x, s, r, profile, repairs + escalations + 1, escalatedFrom)
    requires var a := x.w.answers(s.calls); Settled(x, a, repairs) && (a.SchemaFailure? || a.ProviderFailure?)
    ensures Recorded(Attempted(x, s, r, profile, escalations, repairs, escalatedFrom).s.table, x.w, r,
                     Expected(x.w, x.limits, s.calls, profile, escalations, repairs, escalatedFrom), origin)
  {
    var a := x.w.answers(s.calls);
    var marked := Wrote(x, asked, Fail(r.requestId, ErrorCode(a)));
    FailureUnfolds(x, s, r, profile, escalations, repairs, escalatedFrom);
    ExpectedWhenSettled(x.w, x.limits, s.calls, profile, escalations, repairs, escalatedFrom);
    WroteIsLater(x, asked, Fail(r.requestId, ErrorCode(a)));
    FailedWhenMarked(x, asked, r, ErrorCode(a));
    var t := Escalating(x, marked, r, profile, escalations, Failure(a));
    EscalatingIsLater(x, marked, r, profile, escalations, Failure(a), t);
    FailedStaysFailed(marked.table, t.s.table, r);
  }

  lemma RepairIsRecorded(x: Setup, s: Standing, r: Request, profile: string, escalations: nat, repairs: nat,
                         escalatedFrom: Option<string>, asked: Standing, origin: Origin)
    requires repairs + 1 < Budget(x.limits) && x.w.resolves(profile) && Found(x, s, r).None?
    requires x.w.answers(s.calls).SchemaFailure?
    requires asked == Asked(x, s, r, profile, repairs + escalations + 1, escalatedFrom)
    requires Recorded(Attempted(x, asked, r, profile, escalations, repairs + 1, escalatedFrom).s.table, x.w, r,
                      Expected(x.w, x.limits, asked.calls, profile, escalations, repairs + 1, escalatedFrom), origin)
    ensures Recorded(Attempted(x, s, r, profile, escalations, repairs, escalatedFrom).s.table, x.w, r,
                     Expected(x.w, x.limits, s.calls, profile, escalations, repairs, escalatedFrom), origin)
  {
    RepairUnfolds(x, s, r, profile, escalations, repairs, escalatedFrom);
    ExpectedAfterRepair(x.w, x.limits, s.calls, profile, escalations, repairs, escalatedFrom);
  }

  /** A tracked request leaves its record as it ended; one that escalates stays failed. */
  lemma {:induction false} AttemptedIsRecorded(x: Setup, s: Standing, r: Request, profile: string, escalations: nat,
                                               repairs: nat, escalatedFrom: Option<string>)
    requires Valid(s.table) && repairs < Budget(x.limits)
    requires x.attached && Dependable(x.w, r) && Tracked(s.table, r)
    ensures Recorded(Attempted(x, s, r, profile, escalations, repairs, escalatedFrom).s.table, x.w, r,
                     Expected(x.w, x.limits, s.calls, profile, escalations, repairs, escalatedFrom),
                     OriginOf(s.table, r, repairs + escalations + 1, escalatedFrom))
    decreases Budget(x.limits) - repairs
  {
    TrackedIsNotReusable(s.table, x.w, r);
    if x.w.resolves(profile) {
      var attempts := repairs + escalations + 1;
      var a, asked := x.w.answers(s.calls), Asked(x, s, r, profile, attempts, escalatedFrom);
      var origin := OriginOf(s.table, r, attempts, escalatedFrom);
      OpenWhenAsked(x, s, r, profile, attempts, escalatedFrom);
      if !Settled(x, a, repairs) {
        assert OriginOf(asked.table, r, attempts + 1, escalatedFrom) == origin;
        AttemptedIsRecorded(x, asked, r, profile, escalations, repairs + 1, escalatedFrom);
        RepairIsRecorded(x, s, r, profile, escalations, repairs, escalatedFrom, asked, origin);
      } else if a.SchemaFailure? || a.ProviderFailure? {
        FailureIsRecorded(x, s, r, profile, escalations, repairs, escalatedFrom, asked, origin);
      } else {
        assert OriginOf(asked.table, r, 0, None) == origin;
        AnswerIsRecorded(x, s, r, profile, escalations, repairs, escalatedFrom, asked);
      }
    }
  }

  /**
   What a later request gets back, exactly. A stored result says one attempt, however many repairs it
   took, so it is the result the first caller got if and only if that took a single call.
   */
  lemma {:induction false} ReusedResultExactly(x: Setup, s: Standing, r: Request, profile: string)
    requires Valid(s.table) && x.attached && Dependable(x.w, r) && Unseen(s.table, r)
    requires Attempted(x, s, r, profile, 0, 0, None).outcome.Done?
    requires !Expected(x.w, x.limits, s.calls, profile, 0, 0, None).escalated
    ensures var first := Attempted(x, s, r, profile, 0, 0, None);
      && Reuse(first.s.table, x.w, r.key) == Some(first.outcome.result.(attempts := 1))
      && (Reuse(first.s.table, x.w, r.key) == Some(first.outcome.result) <==> first.s.calls == s.calls + 1)
  {
    TrackedIsNotReusable(s.table, x.w, r);
    AttemptedAsExpected(x, s, r, profile, 0, 0, None);
    AttemptedIsRecorded(x, s, r, profile, 0, 0, None);
    var e := Expected(x.w, x.limits, s.calls, profile, 0, 0, None);
    assert x.w.answers(s.calls + e.calls - 1).requestId == r.requestId;
  }

  /** One repair, then a success: two calls were made, and the stored result says one attempt. */
  lemma RepairsAreForgotten(l: Limits, r: Request, profile: string) returns (x: Setup, s: Standing)
    requires Budget(l) > 1 && r.roleIsKnown
    ensures x.limits == l && x.attached && Dependable(x.w, r) && s == Standing(Table(map[], map[]), 0, 0, [])
    ensures var first := Attempted(x, s, r, profile, 0, 0, None);
      && first.outcome.Done? && first.outcome.result.attempts == 2
      && Reuse(first.s.table, x.w, r.key) == Some(first.outcome.result.(attempts := 1))
  {
    x := Setup(Sound(i => if i == 0 then SchemaFailure else Success(r.requestId, "", "", 0)), l, true);
    s := Standing(Table(map[], map[]), 0, 0, []);
    SoundIsDependable(x.w.answers, r);
    AttemptedAsExpected(x, s, r, profile, 0, 0, None);
    assert Settle(x.w, 0, Budget(l)) == 2 by {
      assert Settle(x.w, 1, Budget(l) - 1) == 1;
    }
    ReusedResultExactly(x, s, r, profile);
  }

  /** Nothing under the key is usable, and this request's writes will not change that. */
  predicate Blocked(t: Table, w: World, r: Request) {
    !Tracked(t, r) && Reuse(t, w, r.key).None?
  }

  lemma BlockedWhenWritten(x: Setup, s: Standing, r: Request, op: Operation)
    requires Valid(s.table) && Blocked(s.table, x.w, r)
    requires match op
             case Append(record) => record.key == r.key && record.requestId == r.requestId
             case Complete(id, _, _, _) => id == r.requestId
             case Fail(id, _) => id == r.requestId
    ensures Valid(Wrote(x, s, op).table) && Blocked(Wrote(x, s, op).table, x.w, r)
  {
    AppliedIsLater(s.table, op);
  }

  lemma {:induction false} BlockedStays(x: Setup, s: Standing, r: Request, profile: string, escalations: nat,
                                        repairs: nat, escalatedFrom: Option<string>, t: Ran)
    requires Valid(s.table) && Blocked(s.table, x.w, r) && repairs < Budget(x.limits) && Dependable(x.w, r)
    requires t == Attempted(x, s, r, profile, escalations, repairs, escalatedFrom)
    ensures Blocked(t.s.table, x.w, r)
    decreases if MayEscalate(x.limits, profile, escalations) then 1 else 0, Budget(x.limits) - repairs
  {
    if x.w.resolves(profile) {
      var attempts := repairs + escalations + 1;
      var a, asked := x.w.answers(s.calls), Asked(x, s, r, profile, attempts, escalatedFrom);
      BlockedWhenWritten(x, Looked(x, s), r, StartOf(r, profile, attempts, escalatedFrom));
      if !Settled(x, a, repairs) {
        RepairUnfolds(x, s, r, profile, escalations, repairs, escalatedFrom);
        BlockedStays(x, asked, r, profile, escalations, repairs + 1, escalatedFrom, t);
      } else if a.SchemaFailure? || a.ProviderFailure? {
        FailureUnfolds(x, s, r, profile, escalations, repairs, escalatedFrom);
        BlockedWhenWritten(x, asked, r, Fail(r.requestId, ErrorCode(a)));
        if MayEscalate(x.limits, profile, escalations) {
          BlockedStays(x, Remote(x, asked, r, a), r, REMOTE, escalations + 1, 0, Some(profile), t);
        }
      } else {
        AnswerUnfolds(x, s, r, profile, escalations, repairs, escalatedFrom);
        if a.Success? {
          BlockedWhenWritten(x, asked, r, Completing(x, a));
        }
      }
    }
  }

  /**
   What a success leaves for later, exactly. With a dependable store and nothing to reuse
   beforehand, a result is on record afterwards if and only if the request did not escalate and
   its key was free or its own: under a key another request id owns, the start is answered with
   that id and ignored, and the completion finds no row and is swallowed.
   */
  lemma {:induction false} ReusableAfterwardsExactly(x: Setup, s: Standing, r: Request, profile: string)
    requires Valid(s.table) && x.attached && Dependable(x.w, r) && Reuse(s.table, x.w, r.key).None?
    requires Attempted(x, s, r, profile, 0, 0, None).outcome.Done?
    ensures Reuse(Attempted(x, s, r, profile, 0, 0, None).s.table, x.w, r.key).Some?
       <==> Tracked(s.table, r) && !Expected(x.w, x.limits, s.calls, profile, 0, 0, None).escalated
  {
    var t := Attempted(x, s, r, profile, 0, 0, None);
    AttemptedAsExpected(x, s, r, profile, 0, 0, None);
    if Tracked(s.table, r) {
      AttemptedIsRecorded(x, s, r, profile, 0, 0, None);
    } else {
      BlockedStays(x, s, r, profile, 0, 0, None, t);
    }
  }

  /** After a crash: the key belongs to an open row of another id, so the retry succeeds and records nothing. */
  lemma RetryUnderOpenKeyIsLost(l: Limits, r: Request, crashed: nat) returns (x: Setup, s: Standing)
    requires r.requestId != crashed && r.roleIsKnown
    ensures Valid(s.table) && x.limits == l && x.attached && Dependable(x.w, r)
    ensures r.key in s.table.index && s.table.index[r.key] == crashed && s.table.rows[crashed].status.InProgress?
    ensures var t := Attempted(x, s, r, REMOTE, 0, 0, None);
            t.outcome.Done? && Reuse(t.s.table, x.w, r.key).None?
  {
    x := Setup(Sound(i => Success(r.requestId, "", "", 0)), l, true);
    var open := Record(crashed, r.key, "", "", InProgress, 1, None, None, None);
    s := Standing(Table(map[crashed := open], map[r.key := crashed]), 0, 0, []);
    SoundIsDependable(x.w.answers, r);
    AttemptedAsExpected(x, s, r, REMOTE, 0, 0, None);
    assert Settle(x.w, 0, Budget(l)) == 1;
    ReusableAfterwardsExactly(x, s, r, REMOTE);
  }

  lemma SoundIsDependable(answers: nat -> Answer, r: Request)
    requires r.roleIsKnown && forall n: nat :: answers(n).Success? ==> answers(n).requestId == r.requestId
    ensures Dependable(Sound(answers), r)
  {
    forall n: nat ensures Strokes(n) != "" && Counted(Strokes(n)) == Some(n) {
    }
  }

  /** A stored result answers a request without a provider call. */
  lemma StoredResultCostsNothing(x: Setup, s: Standing, r: Request, force: string, escalate: bool)
    requires x.attached && x.w.healthy(s.accesses) && Reuse(s.table, x.w, r.key).Some?
    requires SelectProfile(x.w, r, force, escalate).Some?
    requires x.w.resolves(SelectProfile(x.w, r, force, escalate).value.profile)
    ensures var t := Routed(x, s, r, force, escalate);
            && t.s.calls == s.calls && t.s.table == s.table
            && t.outcome == Done(Reuse(s.table, x.w, r.key).value)
  {
  }

  /**
   A request `r` succeeds on a dependable store, under a key that was free or its own; at any
   later time another request `r2`, with an id and a profile of its own, comes under that key.
   */
  ghost predicate Repeated(x: Setup, s: Standing, r: Request, profile: string,
                           later: Standing, r2: Request, profile2: string) {
    && Valid(s.table) && Tracked(s.table, r) && x.attached && Dependable(x.w, r)
    && Attempted(x, s, r, profile, 0, 0, None).outcome.Done?
    && Valid(later.table) && Later(Attempted(x, s, r, profile, 0, 0, None).s.table, later.table)
    && r2.key == r.key && x.w.resolves(profile2)
  }

  predicate Free(x: Setup, later: Standing, r2: Request, profile2: string) {
    Attempted(x, later, r2, profile2, 0, 0, None).s.calls == later.calls
  }

  /**
   Durable reuse, exactly. The second request costs no provider call if and only if the first
   did not escalate, and then it has the first one's output: escalation leaves the record
   failed, and a failed record never completes.
   */
  lemma SecondRequestIsFreeExactly(x: Setup, s: Standing, r: Request, profile: string,
                                   later: Standing, r2: Request, profile2: string)
    requires Repeated(x, s, r, profile, later, r2, profile2)
    ensures var first, again := Attempted(x, s, r, profile, 0, 0, None), Attempted(x, later, r2, profile2, 0, 0, None);
            && (Free(x, later, r2, profile2) <==> first.s.logs == s.logs)
            && (Free(x, later, r2, profile2) ==>
                  again.outcome.Done? && again.outcome.result.output == first.outcome.result.output)
  {
    var first := Attempted(x, s, r, profile, 0, 0, None);
    var e := Expected(x.w, x.limits, s.calls, profile, 0, 0, None);
    TrackedIsNotReusable(s.table, x.w, r);
    AttemptedAsExpected(x, s, r, profile, 0, 0, None);
    AttemptedIsRecorded(x, s, r, profile, 0, 0, None);
    AttemptedIsLater(x, s, r, profile, 0, 0, None, first);
    if e.escalated {
      FailedStaysFailed(first.s.table, later.table, r);
      AttemptedAsExpected(x, later, r2, profile2, 0, 0, None);
      FirstSettledAnswerDecides(x.w, x.limits, later.calls, profile2);
    } else {
      ReuseIsForever(first.s.table, later.table, x.w, r.key);
    }
  }

  /** A provider failure, then a success on the remote profile: the same key pays a second time. */
  lemma EscalationIsPaidAgain(l: Limits, profile: string, r: Request) returns (x: Setup, s: Standing, later: Standing)
    requires MayEscalate(l, profile, 0) && r.roleIsKnown
    ensures x.limits == l && Repeated(x, s, r, profile, later, r, profile) && !Free(x, later, r, profile)
  {
    x := Setup(Sound(i => if i == 0 then ProviderFailure else Success(r.requestId, "", "", 0)), l, true);
    s := Standing(Table(map[], map[]), 0, 0, []);
    SoundIsDependable(x.w.answers, r);
    AttemptedAsExpected(x, s, r, profile, 0, 0, None);
    assert Settle(x.w, 0, Budget(l)) == 1 && Settle(x.w, 1, Budget(l)) == 1;
    var first := Attempted(x, s, r, profile, 0, 0, None);
    AttemptedIsLater(x, s, r, profile, 0, 0, None, first);
    later := first.s;
    LaterReflexive(later.table);
    SecondRequestIsFreeExactly(x, s, r, profile, later, r, profile);
  }

  lemma LaterReflexive(t: Table)
    ensures Valid(t) ==> Later(t, t)
  {
  }

  /** In the settings' own terms: every repetition is free if and only if the first request cannot escalate. */
  lemma RepetitionsAreFreeExactly(l: Limits, profile: string)
    ensures (forall x: Setup, s: Standing, r: Request, later: Standing, r2: Request, profile2: string ::
               x.limits == l && Repeated(x, s, r, profile, later, r2, profile2) ==> Free(x, later, r2, profile2))
       <==> !MayEscalate(l, profile, 0)
  {
    if MayEscalate(l, profile, 0) {
      var r := Request(0, "", "", true, "", false, None);
      var x, s, later := EscalationIsPaidAgain(l, profile, r);
    } else {
      forall x: Setup, s: Standing, r: Request, later: Standing, r2: Request, profile2: string
        | x.limits == l && Repeated(x, s, r, profile, later, r2, profile2)
        ensures Free(x, later, r2, profile2)
      {
        SecondRequestIsFreeExactly(x, s, r, profile, later, r2, profile2);
        TrackedIsNotReusable(s.table, x.w, r);
        AttemptedAsExpected(x, s, r, profile, 0, 0, None);
      }
    }
  }

  class ModelRouter {
    const x: Setup
    const repo: ModelCallTable
    var calls: nat
    var accesses: nat
    var routingLogs: seq<Routing>

    constructor (x: Setup, repo: ModelCallTable)
      ensures this.x == x && this.repo == repo
      ensures calls == 0 && accesses == 0 && routingLogs == []
    {
      this.x, this.repo := x, repo;
      calls, accesses, routingLogs := 0, 0, [];
    }

    function Now(): Standing
      reads this, repo
    {
      Standing(repo.table, calls, accesses, routingLogs)
    }

    method TryReuseCompleted(r: Request) returns (reused: Option<ModelResult>)
      requires Valid(repo.table)
      modifies this`accesses
      ensures Now() == Looked(x, old(Now())) && reused == Found(x, old(Now()), r)
    {
      if !x.attached {
        return None;
      }
      accesses := accesses + 1;
      if !x.w.healthy(accesses - 1) {
        return None;
      }
      var existing := repo.GetByKey(r.key);
      if existing.None? || !existing.value.status.Completed? || !Truthy(existing.value.output) {
        return None;
      }
      var e, parsed := existing.value, x.w.parse(existing.value.output.value);
      if parsed.None? {
        return None;
      }
      return Some(ModelResult(e.requestId, parsed.value, e.attempts, e.escalatedFrom));
    }

    method RecordCallStarted(r: Request, provider: string, attempts: int, escalatedFrom: Option<string>)
      requires Valid(repo.table)
      modifies this`accesses, repo
      ensures Valid(repo.table)
      ensures Now()
        == if r.roleIsKnown then Wrote(x, old(Now()), StartOf(r, provider, attempts, escalatedFrom)) else old(Now())
    {
      if x.attached && r.roleIsKnown {
        accesses := accesses + 1;
        if x.w.healthy(accesses - 1) {
          var _ := repo.AppendModelCall(
            Record(r.requestId, r.key, provider, provider, InProgress, attempts, escalatedFrom, None, None));
        }
      }
    }

    method RecordCallFailed(r: Request, error: string)
      requires Valid(repo.table)
      modifies this`accesses, repo
      ensures Valid(repo.table) && Now() == Wrote(x, old(Now()), Fail(r.requestId, error))
    {
      if x.attached {
        accesses := accesses + 1;
        if x.w.healthy(accesses - 1) {
          var _ := repo.MarkFailed(r.requestId, error);
        }
      }
    }

    /** Marks the row the provider's answer names; a refusal is only logged. */
    method RecordCallCompleted(a: Answer)
      requires Valid(repo.table) && a.Success?
      modifies this`accesses, repo
      ensures Valid(repo.table) && Now() == Wrote(x, old(Now()), Completing(x, a))
    {
      if x.attached {
        accesses := accesses + 1;
        if x.w.healthy(accesses - 1) {
          var _ := repo.MarkComplete(a.requestId, a.provider, a.model, Some(x.w.dump(a.output)));
        }
      }
    }

    method CompleteWithRetries(r: Request, profile: string, escalations: nat, repairs: nat,
                               escalatedFrom: Option<string>)
      returns (outcome: Outcome)
      requires Valid(repo.table) && repairs < Budget(x.limits)
      modifies this, repo
      ensures Valid(repo.table)
      ensures Ran(Now(), outcome) == Attempted(x, old(Now()), r, profile, escalations, repairs, escalatedFrom)
      decreases if MayEscalate(x.limits, profile, escalations) then 1 else 0, Budget(x.limits) - repairs, 1
    {
      if !x.w.resolves(profile) {
        return Raised(BadConfiguration);
      }
      var reused := TryReuseCompleted(r);
      if reused.Some? {
        return Done(reused.value);
      }
      var attempts := repairs + escalations + 1;
      RecordCallStarted(r, profile, attempts, escalatedFrom);
      var a := x.w.answers(calls);
      calls := calls + 1;
      match a {
        case SchemaFailure =>
          if repairs < x.limits.maxRepairs {
            outcome := CompleteWithRetries(r, profile, escalations, repairs + 1, escalatedFrom);
          } else {
            RecordCallFailed(r, "StructuredOutputFailure");
            outcome := EscalateOrRaise(r, profile, escalations, BadSchema);
          }
        case ProviderFailure =>
          RecordCallFailed(r, "ModelError");
          outcome := EscalateOrRaise(r, profile, escalations, ProviderError);
        case Crash =>
          outcome := Raised(Crashed);
        case Success(id, _, _, output) =>
          RecordCallCompleted(a);
          outcome := Done(ModelResult(id, output, attempts, escalatedFrom));
      }
    }

    method EscalateOrRaise(r: Request, profile: string, escalations: nat, error: Error) returns (outcome: Outcome)
      requires Valid(repo.table)
      modifies this, repo
      ensures Valid(repo.table)
      ensures Ran(Now(), outcome) == Escalating(x, old(Now()), r, profile, escalations, error)
      decreases if MayEscalate(x.limits, profile, escalations) then 1 else 0, 0, 0
    {
      if !MayEscalate(x.limits, profile, escalations) {
        return Raised(error);
      }
      routingLogs := routingLogs + [ESCALATION];
      outcome := CompleteWithRetries(r, REMOTE, escalations + 1, 0, Some(profile));
    }

    /** Selects a profile, notes the choice and completes the request on it. */
    method RouteAndComplete(r: Request, force: string, escalate: bool) returns (outcome: Outcome)
      requires Valid(repo.table)
      modifies this, repo
      ensures Valid(repo.table)
      ensures Ran(Now(), outcome) == Routed(x, old(Now()), r, force, escalate)
    {
      var selected := SelectProfile(x.w, r, force, escalate);
      if selected.None? {
        return Raised(BadConfiguration);
      }
      routingLogs := routingLogs + [selected.value];
      outcome := CompleteWithRetries(r, selected.value.profile, 0, 0, None);
    }
  }
}
