/** Fetching a whole option surface in batches (joker/data/webull_options_provider.py). */
module SurfaceFetch {
  import opened Options
  import opened Sorting
  import opened Text

  const ALLOWED_SYMBOL := "SPY"

  datatype Contract = Contract(underlying: string, expiration: int, strike: real, contractId: Option<string>)

  datatype Snapshot = Snapshot(contract: Contract, mid: Option<real>)

  /** What discovery does: lists contracts, says the endpoint is unverified, or fails. */
  datatype Discovery = Found(contracts: seq<Contract>) | Unverified | Failed

  /** What one batch request does, the rate limiter's refusal included. */
  datatype Reply = Returned(snapshots: seq<Snapshot>) | Raised(kind: string, message: string)

  datatype Note =
    | EmergencyTruncated(limit: int)
    | ZeroDiscovered
    | ZeroEligible
    | WrongSymbol(start: int, symbol: string)
    | WrongExpiry(start: int, expiration: int)
    | MissingContractId(start: int)
    | DuplicateContractId(start: int, id: string)
    | MissingIds(start: int, ids: seq<string>)
    | BatchRaised(start: int, kind: string, message: string)
    | CountMismatch(fetched: int, selected: int)

  datatype Surface = Surface(
    snapshots: seq<Snapshot>,
    discovered: nat,
    selected: nat,
    failed: seq<Note>,
    truncated: bool,
    complete: bool,
    tradingDate: int)

  datatype QualityCode = Unavailable | Partial

  function SymbolOf(c: Contract): string {
    Upper(if c.underlying == "" then ALLOWED_SYMBOL else c.underlying)
  }

  predicate Eligible(c: Contract, exp: int) {
    SymbolOf(c) == ALLOWED_SYMBOL && c.expiration == exp && Truthy(c.contractId)
  }

  /** Eligible: no underlying or SPY in any letters, this expiry, and an id that is not empty. */
  lemma EligibleExactly(c: Contract, exp: int)
    ensures Eligible(c, exp) <==>
      && (|c.underlying| == 0 || Upper(c.underlying) == "SPY") && c.expiration == exp
      && exists id :: c.contractId == Some(id) && |id| > 0
  {
    assert Upper("SPY") == "SPY";
  }

  function Id(s: Snapshot): string {
    s.contract.contractId.GetOr("")
  }

  predicate Contains(text: string, part: string) {
    |part| <= |text| && (text[..|part|] == part || (text != "" && Contains(text[1..], part)))
  }

  /** The finding code is chosen by searching the text of the notes. */
  predicate SaysUnavailable(text: string) {
    Contains(text, "zero_") || Contains(Lower(text), "unavailable")
  }

  predicate Blames(n: Note) {
    match n
    case ZeroDiscovered | ZeroEligible => true
    case WrongSymbol(_, symbol) => SaysUnavailable(symbol)
    case DuplicateContractId(_, id) => SaysUnavailable(id)
    case MissingIds(_, ids) => exists i :: 0 <= i < |ids| && i < 8 && SaysUnavailable(ids[i])
    case BatchRaised(_, kind, message) => SaysUnavailable(kind) || SaysUnavailable(message)
    case _ => false
  }

  /** `to_data_quality_findings`: at most one finding. */
  function QualityFindings(s: Surface): seq<QualityCode> {
    if s.failed != [] || s.truncated || !s.complete then
      [if s.selected == 0 || s.snapshots == [] || (exists n :: n in s.failed && Blames(n)) then Unavailable
       else Partial]
    else []
  }

  predicate OccursAt(text: string, part: string, i: int) {
    0 <= i <= |text| - |part| && text[i..i + |part|] == part
  }

  lemma {:induction false} ContainsExactly(text: string, part: string)
    ensures Contains(text, part) <==> exists i :: OccursAt(text, part, i)
  {
    if |part| <= |text| {
      assert OccursAt(text, part, 0) <==> text[..|part|] == part;
      if text != "" {
        ContainsExactly(text[1..], part);
        forall i | i >= 0 ensures OccursAt(text[1..], part, i) <==> OccursAt(text, part, i + 1) {
          if i + 1 + |part| <= |text| {
            assert text[1..][i..i + |part|] == text[i + 1..i + 1 + |part|];
          }
        }
        forall i | i >= 1 && OccursAt(text, part, i) ensures OccursAt(text[1..], part, i - 1) {
          assert OccursAt(text[1..], part, i - 1) <==> OccursAt(text, part, i - 1 + 1);
        }
      }
    }
  }

  /** The texts a note carries from outside, or says itself; of missing ids only the first eight are written out. */
  function TextsOf(n: Note): seq<string> {
    match n
    case ZeroDiscovered => ["zero_contracts_discovered"]
    case ZeroEligible => ["zero_eligible_spy_0dte_contracts"]
    case WrongSymbol(_, symbol) => [symbol]
    case DuplicateContractId(_, id) => [id]
    case MissingIds(_, ids) => if |ids| > 8 then ids[..8] else ids
    case BatchRaised(_, kind, message) => [kind, message]
    case _ => []
  }

  ghost predicate Mentions(text: string) {
    || (exists i :: OccursAt(text, "zero_", i))
    || (exists i :: OccursAt(Lower(text), "unavailable", i))
  }

  lemma MentionsIsSaying(text: string)
    ensures SaysUnavailable(text) <==> Mentions(text)
  {
    ContainsExactly(text, "zero_");
    ContainsExactly(Lower(text), "unavailable");
  }

  lemma BlamesExactly(n: Note)
    ensures Blames(n) <==> exists i :: 0 <= i < |TextsOf(n)| && Mentions(TextsOf(n)[i])
  {
    forall text ensures SaysUnavailable(text) <==> Mentions(text) {
      MentionsIsSaying(text);
    }
    match n {
      case ZeroDiscovered => assert OccursAt(TextsOf(n)[0], "zero_", 0) && Mentions(TextsOf(n)[0]);
      case ZeroEligible => assert OccursAt(TextsOf(n)[0], "zero_", 0) && Mentions(TextsOf(n)[0]);
      case WrongSymbol(_, symbol) => assert TextsOf(n)[0] == symbol;
      case DuplicateContractId(_, id) => assert TextsOf(n)[0] == id;
      case BatchRaised(_, kind, message) => assert TextsOf(n)[0] == kind && TextsOf(n)[1] == message;
      case MissingIds(_, ids) =>
        var texts := TextsOf(n);
        assert |texts| == (if |ids| > 8 then 8 else |ids|) && texts == ids[..|texts|];
        assert forall i :: 0 <= i < |texts| ==> texts[i] == ids[i];
        if i :| 0 <= i < |ids| && i < 8 && SaysUnavailable(ids[i]) {
          assert texts[i] == ids[i] && Mentions(texts[i]);
        }
      case _ =>
    }
  }

  /** An incomplete surface is unavailable when nothing was fetched or some note's text says so, else partial. */
  lemma QualityExactly(s: Surface)
    requires s.failed != [] || s.truncated || !s.complete
    ensures |QualityFindings(s)| == 1
    ensures QualityFindings(s) == [Unavailable] <==>
      || s.selected == 0 || s.snapshots == []
      || exists n, i :: n in s.failed && 0 <= i < |TextsOf(n)| && Mentions(TextsOf(n)[i])
  {
    forall n ensures Blames(n) <==> exists i :: 0 <= i < |TextsOf(n)| && Mentions(TextsOf(n)[i]) {
      BlamesExactly(n);
    }
  }

  function EligibleOf(cs: seq<Contract>, exp: int): seq<Contract> {
    if cs == [] then []
    else
      var front, last := EligibleOf(cs[..|cs| - 1], exp), cs[|cs| - 1];
      if Eligible(last, exp) then front + [last] else front
  }

  function Distance(c: Contract, price: real): real {
    if c.strike >= price then c.strike - price else price - c.strike
  }

  function Selection(cs: seq<Contract>, exp: int, price: real, limit: Option<int>): seq<Contract> {
    var near := Sort(EligibleOf(cs, exp), (a: Contract, b: Contract) => Distance(a, price) <= Distance(b, price));
    if limit.Some? && 0 < limit.value < |near| then near[..limit.value] else near
  }

  predicate Cut(cs: seq<Contract>, exp: int, limit: Option<int>) {
    limit.Some? && 0 < limit.value < |EligibleOf(cs, exp)|
  }

  lemma {:induction false} EligibleOfHolds(cs: seq<Contract>, exp: int)
    ensures forall c :: c in EligibleOf(cs, exp) <==> c in cs && Eligible(c, exp)
  {
    if cs != [] {
      EligibleOfHolds(cs[..|cs| - 1], exp);
      assert cs == cs[..|cs| - 1] + [cs[|cs| - 1]];
    }
  }

  /** Ordering for the fetch drops nothing unless the emergency limit cuts. */
  lemma SelectionHolds(cs: seq<Contract>, exp: int, price: real, limit: Option<int>)
    ensures forall c :: c in Selection(cs, exp, price, limit) ==> c in cs && Eligible(c, exp)
    ensures !Cut(cs, exp, limit) ==> forall c :: c in cs && Eligible(c, exp) ==> c in Selection(cs, exp, price, limit)
  {
    var le := (a: Contract, b: Contract) => Distance(a, price) <= Distance(b, price);
    EligibleOfHolds(cs, exp);
    SortPermutes(EligibleOf(cs, exp), le);
    var near := Sort(EligibleOf(cs, exp), le);
    assert forall c :: c in near <==> c in cs && Eligible(c, exp);
  }

  /** `a` is no further from the price than `b`: it lies between `b` and `b`'s mirror image on the other side. */
  predicate NoFurther(a: Contract, b: Contract, price: real) {
    var mirrored := price + (price - b.strike);
    b.strike <= a.strike <= mirrored || mirrored <= a.strike <= b.strike
  }

  lemma DistancesOrder(a: Contract, b: Contract, price: real)
    ensures Distance(a, price) <= Distance(b, price) <==> NoFurther(a, b, price)
  {
  }

  /** The nearest strikes are fetched first, and the emergency cut leaves out none nearer than it keeps. */
  lemma {:induction false} NearestFirst(cs: seq<Contract>, exp: int, price: real, limit: Option<int>)
    returns (dropped: seq<Contract>)
    ensures var kept := Selection(cs, exp, price, limit);
      && (forall i, j :: 0 <= i < j < |kept| ==> NoFurther(kept[i], kept[j], price))
      && multiset(kept) + multiset(dropped) == multiset(EligibleOf(cs, exp))
      && (forall a, b :: a in kept && b in dropped ==> NoFurther(a, b, price))
      && (dropped != [] <==> Cut(cs, exp, limit))
  {
    var le := (a: Contract, b: Contract) => Distance(a, price) <= Distance(b, price);
    var near, kept := Sort(EligibleOf(cs, exp), le), Selection(cs, exp, price, limit);
    SortPermutes(EligibleOf(cs, exp), le);
    SortSorts(EligibleOf(cs, exp), le);
    dropped := near[|kept|..];
    assert near == kept + dropped;
    forall i, j | 0 <= i < j < |near| ensures NoFurther(near[i], near[j], price) {
      assert le(near[i], near[j]);
      DistancesOrder(near[i], near[j], price);
    }
    forall a, b | a in kept && b in dropped ensures NoFurther(a, b, price) {
      var i :| 0 <= i < |kept| && kept[i] == a;
      var j :| 0 <= j < |dropped| && dropped[j] == b;
      assert near[i] == a && near[|kept| + j] == b;
    }
  }

  predicate RightContract(s: Snapshot, exp: int) {
    SymbolOf(s.contract) == ALLOWED_SYMBOL && s.contract.expiration == exp && Id(s) != ""
  }

  ghost predicate Sane(snapshots: seq<Snapshot>, exp: int) {
    && (forall s :: s in snapshots ==> RightContract(s, exp))
    && (forall i, j :: 0 <= i < j < |snapshots| ==> Id(snapshots[i]) != Id(snapshots[j]))
  }

  function IdsOf(snapshots: seq<Snapshot>): set<string> {
    set s | s in snapshots :: Id(s)
  }

  function RequestedIds(cs: seq<Contract>): set<string> {
    set c | c in cs && Truthy(c.contractId) :: c.contractId.value
  }

  lemma IdsAppend(snapshots: seq<Snapshot>, s: Snapshot)
    ensures IdsOf(snapshots + [s]) == IdsOf(snapshots) + {Id(s)}
  {
    assert forall x :: x in snapshots + [s] <==> x in snapshots || x == s;
  }

  lemma NewIdIsNew(snapshots: seq<Snapshot>, s: Snapshot)
    requires Id(s) !in IdsOf(snapshots)
    ensures forall i :: 0 <= i < |snapshots| ==> Id(snapshots[i]) != Id(s)
  {
    forall i | 0 <= i < |snapshots| ensures Id(snapshots[i]) != Id(s) {
      assert snapshots[i] in snapshots;
    }
  }

  /** Why one answer does not count, if it does not; `seen` are the ids that already do. */
  function Rejection(start: int, snap: Snapshot, exp: int, seen: set<string>): Option<Note> {
    if SymbolOf(snap.contract) != ALLOWED_SYMBOL then Some(WrongSymbol(start, SymbolOf(snap.contract)))
    else if snap.contract.expiration != exp then Some(WrongExpiry(start, snap.contract.expiration))
    else if Id(snap) == "" then Some(MissingContractId(start))
    else if Id(snap) in seen then Some(DuplicateContractId(start, Id(snap)))
    else None
  }

  lemma AcceptedStaysSane(start: int, sofar: seq<Snapshot>, snap: Snapshot, exp: int)
    requires Sane(sofar, exp) && Rejection(start, snap, exp, IdsOf(sofar)).None?
    ensures Sane(sofar + [snap], exp)
  {
    NewIdIsNew(sofar, snap);
  }

  lemma RejectedIsInsane(start: int, sofar: seq<Snapshot>, snap: Snapshot, rest: seq<Snapshot>, exp: int)
    requires Rejection(start, snap, exp, IdsOf(sofar)).Some?
    ensures !Sane(sofar + [snap] + rest, exp)
  {
    var whole := sofar + [snap] + rest;
    assert whole[|sofar|] == snap && snap in whole;
    if Id(snap) in IdsOf(sofar) {
      var j :| 0 <= j < |sofar| && Id(sofar[j]) == Id(snap);
      assert whole[j] == sofar[j];
    }
  }

  lemma IdsOfUnion(a: seq<Snapshot>, b: seq<Snapshot>)
    ensures IdsOf(a + b) == IdsOf(a) + IdsOf(b)
  {
    assert forall s :: s in a + b <==> s in a || s in b;
  }

  lemma SplitAt(already: seq<Snapshot>, reply: seq<Snapshot>, i: nat)
    requires i < |reply|
    ensures already + reply == already + reply[..i] + [reply[i]] + reply[i + 1..]
    ensures reply[..i + 1] == reply[..i] + [reply[i]]
  {
  }

  // ---- what counts of everything the service has said ---------------------------------------------

  /** An earlier answer of the right symbol, expiry and id carries the id. */
  predicate SaidBefore(said: seq<Snapshot>, exp: int, id: string) {
    exists j :: 0 <= j < |said| && RightContract(said[j], exp) && Id(said[j]) == id
  }

  /** The right answers, in order, each id the first time it is answered. */
  function FirstRight(said: seq<Snapshot>, exp: int): seq<Snapshot> {
    if said == [] then []
    else
      var front, last := said[..|said| - 1], said[|said| - 1];
      if RightContract(last, exp) && !SaidBefore(front, exp, Id(last)) then FirstRight(front, exp) + [last]
      else FirstRight(front, exp)
  }

  /** What is wrong with one answer, given everything said before it. */
  function Complaint(start: int, said: seq<Snapshot>, snap: Snapshot, exp: int): Option<Note> {
    if RightContract(snap, exp) then
      if SaidBefore(said, exp, Id(snap)) then Some(DuplicateContractId(start, Id(snap))) else None
    else if SymbolOf(snap.contract) == ALLOWED_SYMBOL then
      if snap.contract.expiration == exp then Some(MissingContractId(start))
      else Some(WrongExpiry(start, snap.contract.expiration))
    else Some(WrongSymbol(start, SymbolOf(snap.contract)))
  }

  lemma SaidOnceMore(said: seq<Snapshot>, snap: Snapshot, exp: int)
    ensures forall id ::
      SaidBefore(said + [snap], exp, id) <==> SaidBefore(said, exp, id) || (RightContract(snap, exp) && Id(snap) == id)
  {
    var more := said + [snap];
    forall id ensures SaidBefore(more, exp, id)
      <==> SaidBefore(said, exp, id) || (RightContract(snap, exp) && Id(snap) == id)
    {
      if SaidBefore(said, exp, id) {
        var j :| 0 <= j < |said| && RightContract(said[j], exp) && Id(said[j]) == id;
        assert more[j] == said[j];
      }
      assert more[|said|] == snap;
    }
  }

  lemma {:induction false} FirstRightHasIds(said: seq<Snapshot>, exp: int)
    ensures forall id :: id in IdsOf(FirstRight(said, exp)) <==> SaidBefore(said, exp, id)
  {
    if said != [] {
      var front, last := said[..|said| - 1], said[|said| - 1];
      assert said == front + [last];
      FirstRightHasIds(front, exp);
      SaidOnceMore(front, last, exp);
      IdsAppend(FirstRight(front, exp), last);
    }
  }

  lemma FirstRightNext(said: seq<Snapshot>, snap: Snapshot, exp: int, start: int)
    ensures FirstRight(said + [snap], exp)
      == FirstRight(said, exp) + if Rejection(start, snap, exp, IdsOf(FirstRight(said, exp))).None? then [snap] else []
    ensures Rejection(start, snap, exp, IdsOf(FirstRight(said, exp))) == Complaint(start, said, snap, exp)
  {
    assert (said + [snap])[..|said|] == said;
    FirstRightHasIds(said, exp);
  }

  /** The note is a complaint about one of the first `n` answers of the reply. */
  ghost predicate Complained(start: int, said: seq<Snapshot>, reply: seq<Snapshot>, exp: int, n: nat, note: Note)
    requires n <= |reply|
  {
    exists i :: 0 <= i < n && Complaint(start, said + reply[..i], reply[i], exp) == Some(note)
  }

  lemma ComplainedNext(start: int, said: seq<Snapshot>, reply: seq<Snapshot>, exp: int, n: nat, note: Note)
    requires n < |reply|
    ensures Complained(start, said, reply, exp, n + 1, note)
      <==> Complained(start, said, reply, exp, n, note)
           || Complaint(start, said + reply[..n], reply[n], exp) == Some(note)
  {
  }

  /** The first `n` answers of the reply have been sorted. */
  ghost predicate Sorted(start: int, said: seq<Snapshot>, already: seq<Snapshot>, reply: seq<Snapshot>, exp: int,
                         n: nat, accepted: seq<Snapshot>, notes: seq<Note>)
    requires n <= |reply|
  {
    && Sane(already + accepted, exp)
    && already + accepted == FirstRight(said + reply[..n], exp)
    && (forall note :: note in notes <==> Complained(start, said, reply, exp, n, note))
    && (notes == [] ==> accepted == reply[..n])
    && (notes != [] ==> !Sane(already + reply, exp))
  }

  lemma NothingSorted(start: int, said: seq<Snapshot>, already: seq<Snapshot>, reply: seq<Snapshot>, exp: int)
    requires Sane(already, exp) && already == FirstRight(said, exp)
    ensures Sorted(start, said, already, reply, exp, 0, [], [])
  {
    assert already + [] == already && said + reply[..0] == said;
  }

  lemma RejectedStep(start: int, said: seq<Snapshot>, already: seq<Snapshot>, reply: seq<Snapshot>, exp: int,
                     n: nat, accepted: seq<Snapshot>, notes: seq<Note>, note: Note)
    requires n < |reply| && Sorted(start, said, already, reply, exp, n, accepted, notes)
    requires Rejection(start, reply[n], exp, IdsOf(already + accepted)) == Some(note)
    ensures Sorted(start, said, already, reply, exp, n + 1, accepted, notes + [note])
  {
    var snap := reply[n];
    SplitAt(already, reply, n);
    assert said + reply[..n + 1] == said + reply[..n] + [snap];
    FirstRightNext(said + reply[..n], snap, exp, start);
    forall x ensures x in notes + [note] <==> Complained(start, said, reply, exp, n + 1, x) {
      ComplainedNext(start, said, reply, exp, n, x);
    }
    if notes == [] {
      RejectedIsInsane(start, already + accepted, snap, reply[n + 1..], exp);
    }
  }

  lemma AcceptedStep(start: int, said: seq<Snapshot>, already: seq<Snapshot>, reply: seq<Snapshot>, exp: int,
                     n: nat, accepted: seq<Snapshot>, notes: seq<Note>)
    requires n < |reply| && Sorted(start, said, already, reply, exp, n, accepted, notes)
    requires Rejection(start, reply[n], exp, IdsOf(already + accepted)) == None
    ensures Sorted(start, said, already, reply, exp, n + 1, accepted + [reply[n]], notes)
  {
    var snap := reply[n];
    SplitAt(already, reply, n);
    assert said + reply[..n + 1] == said + reply[..n] + [snap];
    FirstRightNext(said + reply[..n], snap, exp, start);
    forall x ensures x in notes <==> Complained(start, said, reply, exp, n + 1, x) {
      ComplainedNext(start, said, reply, exp, n, x);
    }
    AcceptedStaysSane(start, already + accepted, snap, exp);
    assert already + (accepted + [snap]) == already + accepted + [snap];
  }

  /**
   Sorts one reply into what counts and what is noted; nothing seen before counts again. `said` is
   everything the service has answered before.
   */
  method Screen(start: int, reply: seq<Snapshot>, exp: int, already: seq<Snapshot>, ghost said: seq<Snapshot>)
    returns (accepted: seq<Snapshot>, notes: seq<Note>)
    requires Sane(already, exp) && already == FirstRight(said, exp)
    ensures already + accepted == FirstRight(said + reply, exp)
    ensures forall note :: note in notes <==> Complained(start, said, reply, exp, |reply|, note)
    ensures Sane(already + accepted, exp)
    ensures notes == [] <==> Sane(already + reply, exp)
    ensures notes == [] ==> accepted == reply
  {
    accepted, notes := [], [];
    NothingSorted(start, said, already, reply, exp);
    for i := 0 to |reply|
      invariant Sorted(start, said, already, reply, exp, i, accepted, notes)
    {
      IdsOfUnion(already, accepted);
      var rejection := Rejection(start, reply[i], exp, IdsOf(already) + IdsOf(accepted));
      if rejection.Some? {
        RejectedStep(start, said, already, reply, exp, i, accepted, notes, rejection.value);
        notes := notes + [rejection.value];
      } else {
        AcceptedStep(start, said, already, reply, exp, i, accepted, notes);
        accepted := accepted + [reply[i]];
      }
    }
    assert reply[..|reply|] == reply;
  }

  function Slice(selected: seq<Contract>, start: nat, size: nat): seq<Contract>
    requires start < |selected|
  {
    if start + size <= |selected| then selected[start..start + size] else selected[start..]
  }

  function MissingFrom(batch: seq<Contract>, snapshots: seq<Snapshot>): (missing: seq<string>)
    ensures missing == [] <==> RequestedIds(batch) <= IdsOf(snapshots)
    ensures forall id :: id in missing <==> id in RequestedIds(batch) && id !in IdsOf(snapshots)
  {
    if batch == [] then []
    else
      var c, rest := batch[0], MissingFrom(batch[1..], snapshots);
      assert batch == [c] + batch[1..];
      assert RequestedIds(batch)
        == RequestedIds(batch[1..]) + if Truthy(c.contractId) then {c.contractId.value} else {};
      if Truthy(c.contractId) && c.contractId.value !in IdsOf(snapshots) then [c.contractId.value] + rest else rest
  }

  /** Keeps the first of equal notes, as a dictionary built from the list does. */
  function Deduplicated(notes: seq<Note>): (kept: seq<Note>)
    ensures forall n :: n in kept <==> n in notes
    ensures forall i, j :: 0 <= i < j < |kept| ==> kept[i] != kept[j]
  {
    if notes == [] then []
    else
      var front, last := Deduplicated(notes[..|notes| - 1]), notes[|notes| - 1];
      assert notes == notes[..|notes| - 1] + [last];
      if last in front then front else front + [last]
  }

  /** What the service answers from the batch at `start` on. */
  ghost function Answers(n: nat, size: nat, replies: int -> Reply, start: nat): seq<Snapshot>
    requires size > 0
    decreases n - start
  {
    if start >= n then []
    else (if replies(start).Returned? then replies(start).snapshots else []) + Answers(n, size, replies, start + size)
  }

  /** The batch at `start` is answered with all it asked for. */
  ghost predicate BatchAnswered(selected: seq<Contract>, size: nat, replies: int -> Reply, start: nat)
    requires start < |selected|
  {
    replies(start).Returned? && RequestedIds(Slice(selected, start, size)) <= IdsOf(replies(start).snapshots)
  }

  /** From `start` on every batch is answered, and answered with all it asked for. */
  ghost predicate Answered(selected: seq<Contract>, size: nat, replies: int -> Reply, start: nat)
    requires size > 0
    decreases |selected| - start
  {
    start < |selected| ==>
      BatchAnswered(selected, size, replies, start) && Answered(selected, size, replies, start + size)
  }

  /** The condition, on the service alone, under which a fetch may call itself complete. */
  ghost predicate Faultless(selected: seq<Contract>, size: nat, replies: int -> Reply, exp: int)
    requires size > 0
  {
    && Answered(selected, size, replies, 0)
    && Sane(Answers(|selected|, size, replies, 0), exp)
    && |Answers(|selected|, size, replies, 0)| == |selected|
  }

  /** The larger of the configured size and one. */
  function BatchSize(batchSize: int): (size: nat)
    ensures size >= 1 && size >= batchSize && size in {1, batchSize}
  {
    if batchSize > 1 then batchSize else 1
  }

  lemma SanePrefix(a: seq<Snapshot>, b: seq<Snapshot>, exp: int)
    requires Sane(a + b, exp)
    ensures Sane(a, exp)
  {
    assert forall i :: 0 <= i < |a| ==> a[i] == (a + b)[i];
    assert forall s :: s in a ==> s in a + b;
  }

  /** The loop invariant of the batch loop: no note so far exactly means that nothing is lost so far. */
  ghost predicate Tracks(selected: seq<Contract>, size: nat, replies: int -> Reply, exp: int,
                         earlier: seq<Note>, start: nat, snapshots: seq<Snapshot>, failed: seq<Note>)
    requires size > 0
  {
    var asked := Answers(|selected|, size, replies, 0);
    && Sane(snapshots, exp)
    && earlier <= failed
    && (failed == [] ==>
          && snapshots + Answers(|selected|, size, replies, start) == asked
          && (Answered(selected, size, replies, 0) <==> Answered(selected, size, replies, start)))
    && (failed != [] ==> earlier != [] || !Answered(selected, size, replies, 0) || !Sane(asked, exp))
  }

  lemma RaisedStep(selected: seq<Contract>, size: nat, replies: int -> Reply, exp: int, earlier: seq<Note>,
                   start: nat, snapshots: seq<Snapshot>, failed: seq<Note>, note: Note)
    requires size > 0 && start < |selected| && replies(start).Raised?
    requires Tracks(selected, size, replies, exp, earlier, start, snapshots, failed)
    ensures Tracks(selected, size, replies, exp, earlier, start + size, snapshots, failed + [note])
  {
  }

  lemma ReturnedStep(selected: seq<Contract>, size: nat, replies: int -> Reply, exp: int, earlier: seq<Note>,
                     start: nat, snapshots: seq<Snapshot>, failed: seq<Note>,
                     reply: seq<Snapshot>, accepted: seq<Snapshot>, notes: seq<Note>, missing: seq<Note>)
    requires size > 0 && start < |selected| && replies(start) == Returned(reply)
    requires Tracks(selected, size, replies, exp, earlier, start, snapshots, failed)
    requires Sane(snapshots + accepted, exp)
    requires notes == [] <==> Sane(snapshots + reply, exp)
    requires notes == [] ==> accepted == reply
    requires missing == [] <==> RequestedIds(Slice(selected, start, size)) <= IdsOf(accepted)
    ensures Tracks(selected, size, replies, exp, earlier, start + size, snapshots + accepted, failed + notes + missing)
  {
    if failed == [] {
      var rest := Answers(|selected|, size, replies, start + size);
      assert Answers(|selected|, size, replies, start) == reply + rest;
      Regroup(snapshots, reply, rest);
      if notes != [] {
        InsaneStaysInsane(snapshots + reply, rest, exp);
      }
    }
  }

  lemma Regroup(a: seq<Snapshot>, b: seq<Snapshot>, c: seq<Snapshot>)
    ensures a + (b + c) == (a + b) + c
  {
  }

  lemma InsaneStaysInsane(a: seq<Snapshot>, b: seq<Snapshot>, exp: int)
    requires !Sane(a, exp)
    ensures !Sane(a + b, exp)
  {
    if Sane(a + b, exp) {
      SanePrefix(a, b, exp);
    }
  }

  // ---- what is kept and noted, batch by batch -----------------------------------------------------

  /** A batch starts at nought, at `size`, at twice `size` and so on. */
  predicate Starts(size: nat, start: nat)
    requires size > 0
  {
    start == 0 || (start >= size && Starts(size, start - size))
  }

  lemma {:induction false} StartsApart(size: nat, s: nat, t: nat)
    requires size > 0 && Starts(size, s) && Starts(size, t) && s < t
    ensures s + size <= t
  {
    if s >= size {
      StartsApart(size, s - size, t - size);
    }
  }

  /** Everything answered by the batches before `start`. */
  function SaidUntil(size: nat, replies: int -> Reply, start: nat): seq<Snapshot>
    requires size > 0
  {
    if start < size then []
    else
      SaidUntil(size, replies, start - size)
      + if replies(start - size).Returned? then replies(start - size).snapshots else []
  }

  /** What the answered batch at `start` adds to what counts. */
  ghost predicate Adds(size: nat, replies: int -> Reply, exp: int, start: nat, added: seq<Snapshot>)
    requires size > 0 && replies(start).Returned?
  {
    FirstRight(SaidUntil(size, replies, start), exp) + added
      == FirstRight(SaidUntil(size, replies, start) + replies(start).snapshots, exp)
  }

  /** The batch at `start` gives reason for the note. */
  ghost predicate Warrants(selected: seq<Contract>, size: nat, replies: int -> Reply, exp: int, start: nat, note: Note)
    requires size > 0 && start < |selected|
  {
    match replies(start)
    case Raised(kind, message) => note == BatchRaised(start, kind, message)
    case Returned(reply) =>
      || Complained(start, SaidUntil(size, replies, start), reply, exp, |reply|, note)
      || (exists added :: Adds(size, replies, exp, start, added)
            && MissingFrom(Slice(selected, start, size), added) != []
            && note == MissingIds(start, MissingFrom(Slice(selected, start, size), added)))
  }

  ghost predicate Warranted(selected: seq<Contract>, size: nat, replies: int -> Reply, exp: int, end: nat, note: Note)
    requires size > 0
  {
    exists start: nat :: IsBatch(selected, size, start, end) && Warrants(selected, size, replies, exp, start, note)
  }

  /** A batch starts here, before `end`. */
  predicate IsBatch(selected: seq<Contract>, size: nat, start: nat, end: nat)
    requires size > 0
  {
    start < end && start < |selected| && Starts(size, start)
  }

  /** The second loop invariant: what is kept is what counts of all that was said, and each note has its reason. */
  ghost predicate Reported(selected: seq<Contract>, size: nat, replies: int -> Reply, exp: int,
                           earlier: seq<Note>, start: nat, snapshots: seq<Snapshot>, failed: seq<Note>)
    requires size > 0
  {
    && Starts(size, start)
    && snapshots == FirstRight(SaidUntil(size, replies, start), exp)
    && SaidUntil(size, replies, start) + Answers(|selected|, size, replies, start)
       == Answers(|selected|, size, replies, 0)
    && forall note :: note in failed <==> note in earlier || Warranted(selected, size, replies, exp, start, note)
  }

  ghost predicate InStep(selected: seq<Contract>, size: nat, replies: int -> Reply, exp: int,
                         earlier: seq<Note>, start: nat, snapshots: seq<Snapshot>, failed: seq<Note>)
    requires size > 0
  {
    && Tracks(selected, size, replies, exp, earlier, start, snapshots, failed)
    && Reported(selected, size, replies, exp, earlier, start, snapshots, failed)
  }

  lemma WarrantedNext(selected: seq<Contract>, size: nat, replies: int -> Reply, exp: int, start: nat, note: Note)
    requires size > 0 && start < |selected| && Starts(size, start)
    ensures Warranted(selected, size, replies, exp, start + size, note)
      <==> Warranted(selected, size, replies, exp, start, note) || Warrants(selected, size, replies, exp, start, note)
  {
    forall s: nat
      ensures IsBatch(selected, size, s, start + size) <==> IsBatch(selected, size, s, start) || s == start
    {
      if start < s && Starts(size, s) {
        StartsApart(size, start, s);
      }
    }
  }

  lemma SaidNext(n: nat, size: nat, replies: int -> Reply, start: nat)
    requires size > 0 && start < n
    requires SaidUntil(size, replies, start) + Answers(n, size, replies, start) == Answers(n, size, replies, 0)
    ensures SaidUntil(size, replies, start + size) + Answers(n, size, replies, start + size)
      == Answers(n, size, replies, 0)
  {
    var reply := if replies(start).Returned? then replies(start).snapshots else [];
    Regroup(SaidUntil(size, replies, start), reply, Answers(n, size, replies, start + size));
  }

  lemma RaisedIsReported(selected: seq<Contract>, size: nat, replies: int -> Reply, exp: int, earlier: seq<Note>,
                         start: nat, snapshots: seq<Snapshot>, failed: seq<Note>, note: Note)
    requires size > 0 && start < |selected|
    requires Reported(selected, size, replies, exp, earlier, start, snapshots, failed)
    requires replies(start).Raised? && note == BatchRaised(start, replies(start).kind, replies(start).message)
    ensures Reported(selected, size, replies, exp, earlier, start + size, snapshots, failed + [note])
  {
    SaidNext(|selected|, size, replies, start);
    assert SaidUntil(size, replies, start) + [] == SaidUntil(size, replies, start);
    forall x ensures x in failed + [note] <==>
      x in earlier || Warranted(selected, size, replies, exp, start + size, x)
    {
      WarrantedNext(selected, size, replies, exp, start, x);
    }
  }

  lemma AddedOnce(size: nat, replies: int -> Reply, exp: int, start: nat, a: seq<Snapshot>, b: seq<Snapshot>)
    requires size > 0 && replies(start).Returned?
    requires Adds(size, replies, exp, start, a) && Adds(size, replies, exp, start, b)
    ensures a == b
  {
    var before := FirstRight(SaidUntil(size, replies, start), exp);
    assert a == (before + a)[|before|..] && b == (before + b)[|before|..];
  }

  lemma ReturnedWarrants(selected: seq<Contract>, size: nat, replies: int -> Reply, exp: int, start: nat,
                         accepted: seq<Snapshot>, notes: seq<Note>, gap: seq<Note>, note: Note)
    requires size > 0 && start < |selected| && replies(start).Returned?
    requires Adds(size, replies, exp, start, accepted)
    requires var reply := replies(start).snapshots; forall x :: x in notes <==>
      Complained(start, SaidUntil(size, replies, start), reply, exp, |reply|, x)
    requires var missing := MissingFrom(Slice(selected, start, size), accepted);
      gap == if missing != [] then [MissingIds(start, missing)] else []
    ensures note in notes + gap <==> Warrants(selected, size, replies, exp, start, note)
  {
    forall added | Adds(size, replies, exp, start, added) ensures added == accepted {
      AddedOnce(size, replies, exp, start, added, accepted);
    }
    var missing := MissingFrom(Slice(selected, start, size), accepted);
    assert note in gap <==> missing != [] && note == MissingIds(start, missing);
  }

  lemma ReturnedIsReported(selected: seq<Contract>, size: nat, replies: int -> Reply, exp: int, earlier: seq<Note>,
                           start: nat, snapshots: seq<Snapshot>, failed: seq<Note>,
                           accepted: seq<Snapshot>, notes: seq<Note>, gap: seq<Note>)
    requires size > 0 && start < |selected| && replies(start).Returned?
    requires Reported(selected, size, replies, exp, earlier, start, snapshots, failed)
    requires snapshots + accepted == FirstRight(SaidUntil(size, replies, start) + replies(start).snapshots, exp)
    requires var reply := replies(start).snapshots; forall x :: x in notes <==>
      Complained(start, SaidUntil(size, replies, start), reply, exp, |reply|, x)
    requires var missing := MissingFrom(Slice(selected, start, size), accepted);
      gap == if missing != [] then [MissingIds(start, missing)] else []
    ensures Reported(selected, size, replies, exp, earlier, start + size, snapshots + accepted, failed + notes + gap)
  {
    SaidNext(|selected|, size, replies, start);
    forall x ensures x in failed + notes + gap <==>
      x in earlier || Warranted(selected, size, replies, exp, start + size, x)
    {
      ReturnedWarrants(selected, size, replies, exp, start, accepted, notes, gap, x);
      WarrantedNext(selected, size, replies, exp, start, x);
    }
  }

  /**
   Fetches batch by batch. What is kept is, in order, every right answer of a batch that returned,
   each id once; each note has its reason and each reason its note; and nothing is noted exactly
   when the service was clean.
   */
  method FetchBatches(selected: seq<Contract>, size: nat, replies: int -> Reply, exp: int, earlier: seq<Note>)
    returns (snapshots: seq<Snapshot>, failed: seq<Note>)
    requires size > 0
    ensures Sane(snapshots, exp)
    ensures earlier <= failed
    ensures failed == [] <==>
            earlier == [] && Answered(selected, size, replies, 0) && Sane(Answers(|selected|, size, replies, 0), exp)
    ensures failed == [] ==> snapshots == Answers(|selected|, size, replies, 0)
    ensures snapshots == FirstRight(Answers(|selected|, size, replies, 0), exp)
    ensures forall note :: note in failed <==>
      note in earlier || Warranted(selected, size, replies, exp, |selected|, note)
  {
    snapshots, failed := [], earlier;
    var start := 0;
    NothingFetched(selected, size, replies, exp, earlier);
    while start < |selected|
      invariant 0 <= start
      invariant InStep(selected, size, replies, exp, earlier, start, snapshots, failed)
      decreases |selected| - start
    {
      snapshots, failed := FetchBatch(selected, size, replies, exp, earlier, start, snapshots, failed);
      start := start + size;
    }
    BatchesDone(selected, size, replies, exp, earlier, start, snapshots, failed);
  }

  lemma NothingFetched(selected: seq<Contract>, size: nat, replies: int -> Reply, exp: int, earlier: seq<Note>)
    requires size > 0
    ensures InStep(selected, size, replies, exp, earlier, 0, [], earlier)
  {
    var asked := Answers(|selected|, size, replies, 0);
    assert [] + asked == asked;
  }

  lemma BatchesDone(selected: seq<Contract>, size: nat, replies: int -> Reply, exp: int, earlier: seq<Note>,
                    end: nat, snapshots: seq<Snapshot>, failed: seq<Note>)
    requires size > 0 && end >= |selected|
    requires InStep(selected, size, replies, exp, earlier, end, snapshots, failed)
    ensures Sane(snapshots, exp) && earlier <= failed
    ensures failed == [] <==>
            earlier == [] && Answered(selected, size, replies, 0) && Sane(Answers(|selected|, size, replies, 0), exp)
    ensures failed == [] ==> snapshots == Answers(|selected|, size, replies, 0)
    ensures snapshots == FirstRight(Answers(|selected|, size, replies, 0), exp)
    ensures forall note :: note in failed <==>
      note in earlier || Warranted(selected, size, replies, exp, |selected|, note)
  {
    assert SaidUntil(size, replies, end) + [] == SaidUntil(size, replies, end);
    WarrantedToTheEnd(selected, size, replies, exp, end);
  }

  /** One batch: its right answers and its complaints, or what it raised. */
  method FetchBatch(selected: seq<Contract>, size: nat, replies: int -> Reply, exp: int, ghost earlier: seq<Note>,
                    start: nat, snapshots: seq<Snapshot>, failed: seq<Note>)
    returns (snapshots': seq<Snapshot>, failed': seq<Note>)
    requires size > 0 && start < |selected|
    requires InStep(selected, size, replies, exp, earlier, start, snapshots, failed)
    ensures InStep(selected, size, replies, exp, earlier, start + size, snapshots', failed')
  {
    match replies(start) {
      case Raised(kind, message) =>
        var note := BatchRaised(start, kind, message);
        RaisedStep(selected, size, replies, exp, earlier, start, snapshots, failed, note);
        RaisedIsReported(selected, size, replies, exp, earlier, start, snapshots, failed, note);
        return snapshots, failed + [note];
      case Returned(reply) =>
        var accepted, notes := Screen(start, reply, exp, snapshots, SaidUntil(size, replies, start));
        var missing := MissingFrom(Slice(selected, start, size), accepted);
        var gap := if missing != [] then [MissingIds(start, missing)] else [];
        ReturnedStep(selected, size, replies, exp, earlier, start, snapshots, failed, reply, accepted, notes, gap);
        ReturnedIsReported(selected, size, replies, exp, earlier, start, snapshots, failed, accepted, notes, gap);
        return snapshots + accepted, failed + notes + gap;
    }
  }

  lemma WarrantedToTheEnd(selected: seq<Contract>, size: nat, replies: int -> Reply, exp: int, end: nat)
    requires size > 0 && end >= |selected|
    ensures forall note ::
      Warranted(selected, size, replies, exp, end, note) <==> Warranted(selected, size, replies, exp, |selected|, note)
  {
  }

  /** Everything a fetch may complain of: the emergency cut, nothing to fetch, a batch's doing, or a wrong count. */
  ghost predicate Accountable(contracts: seq<Contract>, selected: seq<Contract>, limit: Option<int>, exp: int,
                              size: nat, replies: int -> Reply, fetched: int, note: Note)
    requires size > 0
  {
    || (Cut(contracts, exp, limit) && note == EmergencyTruncated(limit.value))
    || (contracts == [] && note == ZeroDiscovered)
    || (contracts != [] && selected == [] && note == ZeroEligible)
    || Warranted(selected, size, replies, exp, |selected|, note)
    || (fetched != |selected| && note == CountMismatch(fetched, |selected|))
  }

  /**
   What a fetch returns. The snapshots are, in order, the first right answers; every note can be
   accounted for; and complete means that nothing was noted, that the service was faultless, that
   the surface draws no quality finding, and that no eligible contract is missing.
   */
  ghost predicate FetchedAs(s: Surface, contracts: seq<Contract>, selected: seq<Contract>, exp: int,
                            limit: Option<int>, size: nat, replies: int -> Reply)
    requires size > 0
  {
    var answers := Answers(|selected|, size, replies, 0);
    && s.discovered == |contracts| && s.selected == |selected| && s.tradingDate == exp
    && (s.truncated <==> Cut(contracts, exp, limit))
    && s.snapshots == FirstRight(answers, exp) && Sane(s.snapshots, exp)
    && (forall note ::
          note in s.failed <==> Accountable(contracts, selected, limit, exp, size, replies, |s.snapshots|, note))
    && (s.complete <==> s.failed == [])
    && (s.complete <==> selected != [] && !s.truncated && Faultless(selected, size, replies, exp))
    && (s.complete ==> s.snapshots == answers)
    && (s.complete <==> QualityFindings(s) == [])
    && (s.complete ==> forall c :: c in contracts && Eligible(c, exp) ==> c.contractId.value in IdsOf(s.snapshots))
  }

  /** The whole fetch; no result when discovery itself is not survivable. */
  method FetchSurface(discovery: Discovery, candidates: seq<Contract>, allowFallback: bool, exp: int,
                      price: real, limit: Option<int>, batchSize: int, replies: int -> Reply)
    returns (result: Option<Surface>)
    ensures result == None <==> discovery.Failed? || (discovery.Unverified? && !allowFallback)
    ensures result.Some? ==>
              var contracts := if discovery.Found? then discovery.contracts else candidates;
              var selected := Selection(contracts, exp, price, limit);
              var s := result.value;
              FetchedAs(s, contracts, selected, exp, limit, BatchSize(batchSize), replies)
  {
    var contracts;
    match discovery {
      case Found(found) => contracts := found;
      case Unverified =>
        if !allowFallback {
          return None;
        }
        contracts := candidates;
      case Failed => return None;
    }
    var selected := Selection(contracts, exp, price, limit);
    SelectionLength(contracts, exp, price, limit);
    var truncated := Cut(contracts, exp, limit);
    var failed := if truncated then [EmergencyTruncated(limit.value)] else [];
    if selected == [] {
      var reason := if contracts == [] then ZeroDiscovered else ZeroEligible;
      return Some(Surface([], |contracts|, 0, failed + [reason], truncated, false, exp));
    }
    var snapshots;
    snapshots, failed := FetchBatches(selected, BatchSize(batchSize), replies, exp, failed);
    var complete := failed == [];
    if |snapshots| != |selected| {
      complete := false;
      failed := failed + [CountMismatch(|snapshots|, |selected|)];
    }
    var kept := Deduplicated(failed);
    result := Some(Surface(snapshots, |contracts|, |selected|, kept, truncated, complete, exp));
    FetchIsAccounted(result.value, contracts, selected, exp, price, limit, BatchSize(batchSize), replies);
  }

  lemma {:induction false} FetchIsAccounted(s: Surface, contracts: seq<Contract>, selected: seq<Contract>,
                                            exp: int, price: real, limit: Option<int>, size: nat, replies: int -> Reply)
    requires size > 0 && selected == Selection(contracts, exp, price, limit) != []
    requires s.discovered == |contracts| && s.selected == |selected| && s.tradingDate == exp
    requires s.truncated <==> Cut(contracts, exp, limit)
    requires s.snapshots == FirstRight(Answers(|selected|, size, replies, 0), exp) && Sane(s.snapshots, exp)
    requires forall note ::
      note in s.failed <==> Accountable(contracts, selected, limit, exp, size, replies, |s.snapshots|, note)
    requires s.complete <==> s.failed == []
    requires s.complete <==> !s.truncated && Faultless(selected, size, replies, exp)
    requires s.complete ==> s.snapshots == Answers(|selected|, size, replies, 0)
    ensures FetchedAs(s, contracts, selected, exp, limit, size, replies)
  {
    if s.complete {
      forall c | c in contracts && Eligible(c, exp) ensures c.contractId.value in IdsOf(s.snapshots) {
        CompleteCoversEveryEligible(contracts, exp, price, limit, size, replies, c);
      }
    }
  }

  lemma SelectionLength(cs: seq<Contract>, exp: int, price: real, limit: Option<int>)
    ensures |Selection(cs, exp, price, limit)| == if Cut(cs, exp, limit) then limit.value else |EligibleOf(cs, exp)|
  {
    SortPermutes(EligibleOf(cs, exp), (a: Contract, b: Contract) => Distance(a, price) <= Distance(b, price));
  }

  lemma {:induction false} AnsweredCovers(selected: seq<Contract>, size: nat, replies: int -> Reply, start: nat)
    requires size > 0 && Answered(selected, size, replies, start)
    ensures start < |selected| ==>
              RequestedIds(selected[start..]) <= IdsOf(Answers(|selected|, size, replies, start))
    decreases |selected| - start
  {
    if start < |selected| {
      var next := start + size;
      AnsweredCovers(selected, size, replies, next);
      var reply, rest := replies(start).snapshots, Answers(|selected|, size, replies, next);
      forall id | id in RequestedIds(selected[start..]) ensures id in IdsOf(reply + rest) {
        var i :| start <= i < |selected| && Truthy(selected[i].contractId) && selected[i].contractId.value == id;
        var part := Slice(selected, start, size);
        if i < next {
          assert selected[i] == part[i - start];
          assert id in RequestedIds(part);
        } else {
          assert selected[i] == selected[next..][i - next];
          assert id in RequestedIds(selected[next..]);
        }
      }
    }
  }

  /** What a faultless service is worth: no eligible discovered contract is missing from the snapshots. */
  lemma CompleteCoversEveryEligible(contracts: seq<Contract>, exp: int, price: real, limit: Option<int>,
                                    size: nat, replies: int -> Reply, c: Contract)
    requires size > 0
    requires !Cut(contracts, exp, limit)
    requires Faultless(Selection(contracts, exp, price, limit), size, replies, exp)
    requires c in contracts && Eligible(c, exp)
    ensures c.contractId.value in IdsOf(Answers(|Selection(contracts, exp, price, limit)|, size, replies, 0))
  {
    var selected := Selection(contracts, exp, price, limit);
    SelectionHolds(contracts, exp, price, limit);
    AnsweredCovers(selected, size, replies, 0);
    assert selected[0..] == selected;
    assert c.contractId.value in RequestedIds(selected);
  }

  predicate DistinctIds(cs: seq<Contract>) {
    forall i, j :: 0 <= i < j < |cs| ==> cs[i].contractId != cs[j].contractId
  }

  lemma {:induction false} DistinctIdsCount(snapshots: seq<Snapshot>, exp: int)
    requires Sane(snapshots, exp)
    ensures |IdsOf(snapshots)| == |snapshots|
  {
    if snapshots != [] {
      var front, last := snapshots[..|snapshots| - 1], snapshots[|snapshots| - 1];
      assert snapshots == front + [last];
      SanePrefix(front, [last], exp);
      DistinctIdsCount(front, exp);
      IdsAppend(front, last);
    } else {
      assert IdsOf(snapshots) == {};
    }
  }

  lemma {:induction false} DistinctRequestsCount(cs: seq<Contract>)
    requires DistinctIds(cs)
    requires forall c :: c in cs ==> Truthy(c.contractId)
    ensures |RequestedIds(cs)| == |cs|
  {
    if cs != [] {
      var front, last := cs[..|cs| - 1], cs[|cs| - 1];
      assert cs == front + [last];
      DistinctRequestsCount(front);
      assert RequestedIds(cs) == RequestedIds(front) + {last.contractId.value};
    } else {
      assert RequestedIds(cs) == {};
    }
  }

  lemma SubsetOfSameSize<T>(a: set<T>, b: set<T>)
    requires a <= b && |a| == |b|
    ensures a == b
  {
    assert b == a + (b - a);
    assert |b| == |a| + |b - a|;
  }

  /** With distinct contract ids, complete means fetched and requested ids are the same set. */
  lemma CompleteFetchesExactlyTheSelection(selected: seq<Contract>, size: nat, replies: int -> Reply, exp: int)
    requires size > 0
    requires Faultless(selected, size, replies, exp)
    requires DistinctIds(selected) && forall c :: c in selected ==> Truthy(c.contractId)
    ensures IdsOf(Answers(|selected|, size, replies, 0)) == RequestedIds(selected)
  {
    var got := Answers(|selected|, size, replies, 0);
    DistinctIdsCount(got, exp);
    DistinctRequestsCount(selected);
    if selected != [] {
      AnsweredCovers(selected, size, replies, 0);
      assert selected[0..] == selected;
    } else {
      assert RequestedIds(selected) == {};
    }
    SubsetOfSameSize(RequestedIds(selected), IdsOf(got));
  }

  predicate Aligned(snapshots: seq<Snapshot>, contracts: seq<Contract>) {
    |snapshots| == |contracts| && forall i :: 0 <= i < |snapshots| ==> snapshots[i].contract == contracts[i]
  }

  lemma AlignedCovers(reply: seq<Snapshot>, part: seq<Contract>)
    requires Aligned(reply, part)
    ensures RequestedIds(part) <= IdsOf(reply)
  {
    forall id | id in RequestedIds(part) ensures id in IdsOf(reply) {
      var i :| 0 <= i < |part| && Truthy(part[i].contractId) && part[i].contractId.value == id;
      assert reply[i] in reply && Id(reply[i]) == id;
    }
  }

  /** A service that answers every batch with one snapshot for each of its contracts, in order. */
  ghost predicate Faithful(selected: seq<Contract>, size: nat, replies: int -> Reply) {
    forall start: nat :: start < |selected| ==>
      && replies(start).Returned?
      && Aligned(replies(start).snapshots, Slice(selected, start, size))
  }

  lemma {:induction false} EachIsAnswered(selected: seq<Contract>, size: nat, replies: int -> Reply, start: nat)
    requires size > 0 && forall s: nat :: s < |selected| ==> BatchAnswered(selected, size, replies, s)
    ensures Answered(selected, size, replies, start)
    decreases |selected| - start
  {
    if start < |selected| {
      EachIsAnswered(selected, size, replies, start + size);
    }
  }

  lemma FaithfulIsAnswered(selected: seq<Contract>, size: nat, replies: int -> Reply, start: nat)
    requires size > 0 && Faithful(selected, size, replies)
    ensures Answered(selected, size, replies, start)
  {
    forall s: nat | s < |selected| ensures BatchAnswered(selected, size, replies, s) {
      AlignedCovers(replies(s).snapshots, Slice(selected, s, size));
    }
    EachIsAnswered(selected, size, replies, start);
  }

  lemma AlignedJoin(a: seq<Snapshot>, b: seq<Snapshot>, x: seq<Contract>, y: seq<Contract>)
    requires Aligned(a, x) && Aligned(b, y)
    ensures Aligned(a + b, x + y)
  {
  }

  lemma {:induction false} FaithfulIsAligned(selected: seq<Contract>, size: nat, replies: int -> Reply, start: nat)
    requires size > 0 && Faithful(selected, size, replies) && start <= |selected|
    ensures Aligned(Answers(|selected|, size, replies, start), selected[start..])
    decreases |selected| - start
  {
    if start < |selected| {
      var part, next := Slice(selected, start, size), start + size;
      if next <= |selected| {
        FaithfulIsAligned(selected, size, replies, next);
        AlignedJoin(replies(start).snapshots, Answers(|selected|, size, replies, next), part, selected[next..]);
        assert selected[start..] == part + selected[next..];
      } else {
        assert Answers(|selected|, size, replies, start) == replies(start).snapshots;
      }
    }
  }

  /** The verdict is not only safe but attainable: a faithful service is found faultless. */
  lemma FaithfulServiceIsFaultless(selected: seq<Contract>, size: nat, replies: int -> Reply, exp: int)
    requires size > 0 && Faithful(selected, size, replies)
    requires DistinctIds(selected) && forall c :: c in selected ==> Eligible(c, exp)
    ensures Faultless(selected, size, replies, exp)
  {
    FaithfulIsAnswered(selected, size, replies, 0);
    FaithfulIsAligned(selected, size, replies, 0);
    assert selected[0..] == selected;
    AlignedIsSane(Answers(|selected|, size, replies, 0), selected, exp);
  }

  lemma AlignedIsSane(snapshots: seq<Snapshot>, selected: seq<Contract>, exp: int)
    requires Aligned(snapshots, selected) && DistinctIds(selected)
    requires forall c :: c in selected ==> Eligible(c, exp)
    ensures Sane(snapshots, exp)
  {
    forall s | s in snapshots ensures RightContract(s, exp) {
      var i :| 0 <= i < |snapshots| && snapshots[i] == s;
      assert selected[i] in selected;
    }
    forall i, j | 0 <= i < j < |snapshots| ensures Id(snapshots[i]) != Id(snapshots[j]) {
      assert selected[i] in selected && selected[j] in selected;
    }
  }
}
