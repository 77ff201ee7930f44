/** What one round of reconciliation and corrections does to each order, and what it leaves open. */
module OrderRepair {
  import opened Options
  import opened LedgerEvents
  import opened Projection
  import opened Reconciliation
  import opened Consistency
  import opened Corrections
  import opened Repair
  import opened RepairTheorem
  import opened Text

  // ---- one finding's correction ---------------------------------------------------------------

  predicate TargetsOrder(f: Finding, oid: string) {
    f.outcome != Consistent && f.entityType == OrderEntity && f.entityId == oid
  }

  /** What a finding's correction makes of the order it names. */
  function OrderRepaired(f: Finding, o: Order): Order {
    if f.outcome == QuantityMismatch then
      var q := Abs(CorrectionQty(f));
      o.(filledQty := q,
         status := if o.submittedQty > 0.0 && q >= o.submittedQty then Filled
                   else if q > 0.0 then PartiallyFilled
                   else o.status)
    else if f.brokerStatus.Some? && ParseStatus(f.brokerStatus.value).Some?
    then o.(status := ParseStatus(f.brokerStatus.value).value)
    else o
  }

  function OrderAfterAll(fs: seq<Finding>, o: Order, oid: string): Order {
    if fs == [] then o
    else
      var before, last := OrderAfterAll(fs[..|fs| - 1], o, oid), fs[|fs| - 1];
      if TargetsOrder(last, oid) then OrderRepaired(last, before) else before
  }

  lemma CorrectionOnItsOrder(l: Ledger, f: Finding, ctx: Context, id: nat, oid: string)
    requires f.outcome != Consistent && oid in l.orders
    ensures var e := CorrectionFor(f, ctx, id);
      && oid in Step(l, e).orders
      && Step(l, e).orders[oid] ==
           if TargetsOrder(f, oid) && !IsDuplicate(l, e) then OrderRepaired(f, l.orders[oid]) else l.orders[oid]
  {
  }

  /** Only a missing broker order, which restates nothing, may be skipped as a duplicate. */
  predicate Harmless(f: Finding) {
    f.outcome == MissingBrokerOrder && f.brokerStatus.None?
  }

  lemma {:induction false} CorrectionsOnOrder(l: Ledger, fs: seq<Finding>, ctx: Context, oid: string)
    requires FreshContext(l, fs, ctx) && UniqueTargets(fs) && oid in l.orders
    requires forall f :: f in fs && TargetsOrder(f, oid) ==> Repairs(f) || Harmless(f)
    ensures var l' := Run(l, CorrectionEvents(fs, ctx));
      oid in l'.orders && l'.orders[oid] == OrderAfterAll(fs, l.orders[oid], oid)
  {
    if fs != [] {
      var n := |fs| - 1;
      assert fs == fs[..n] + [fs[n]];
      FrontOfReport(l, fs, ctx);
      CorrectionsOnOrder(l, fs[..n], ctx, oid);
      CorrectionsStep(l, fs, ctx);
      var before := Run(l, CorrectionEvents(fs[..n], ctx));
      if fs[n].outcome != Consistent {
        CorrectionOnItsOrder(before, fs[n], ctx, ctx.ids[n], oid);
        if Repairs(fs[n]) {
          RepairsAreApplied(l, fs, ctx);
        }
      }
    }
  }

  // ---- the findings of one order among all -------------------------------------------------------

  lemma {:induction false} AfterConcat(a: seq<Finding>, b: seq<Finding>, o: Order, oid: string)
    ensures OrderAfterAll(a + b, o, oid) == OrderAfterAll(b, OrderAfterAll(a, o, oid), oid)
  {
    if b == [] {
      assert a + b == a;
    } else {
      AfterConcat(a, b[..|b| - 1], o, oid);
      assert (a + b)[..|a + b| - 1] == a + b[..|b| - 1];
    }
  }

  lemma {:induction false} Untargeted(fs: seq<Finding>, o: Order, oid: string)
    requires forall f :: f in fs ==> !TargetsOrder(f, oid)
    ensures OrderAfterAll(fs, o, oid) == o
  {
    if fs != [] {
      assert fs == fs[..|fs| - 1] + [fs[|fs| - 1]];
      Untargeted(fs[..|fs| - 1], o, oid);
    }
  }

  lemma {:induction false} OwnFindingsCount(oids: seq<string>, orders: map<string, Order>, bos: seq<BrokerOrder>,
                                            o: Order, oid: string)
    requires WellKeyed(orders) && forall i, j :: 0 <= i < j < |oids| ==> oids[i] != oids[j]
    ensures OrderAfterAll(OrderFindings(oids, orders, bos), o, oid) ==
      if oid in oids && oid in orders && Active(orders[oid])
      then OrderAfterAll(FindingsForOrder(oid, orders[oid], bos), o, oid) else o
  {
    if oids != [] {
      var front, last := oids[..|oids| - 1], oids[|oids| - 1];
      assert oids == front + [last];
      OwnFindingsCount(front, orders, bos, o, oid);
      if last in orders && Active(orders[last]) {
        var before := OrderFindings(front, orders, bos);
        AfterConcat(before, FindingsForOrder(last, orders[last], bos), o, oid);
        if last != oid {
          OneOrderShape(last, orders, bos);
          Untargeted(FindingsForOrder(last, orders[last], bos), OrderAfterAll(before, o, oid), oid);
        } else {
          assert oid !in front;
        }
      }
    }
  }

  // ---- the order after the round ---------------------------------------------------------------------

  /** The fill after the round: the broker's, unless the broker has none or agrees. */
  function FillAfter(o: Order, bo: BrokerOrder): real {
    if o.filledQty == bo.filledQty then o.filledQty
    else if bo.filledQty != 0.0 then Abs(bo.filledQty)
    else Abs(o.filledQty)
  }

  /** The status a restated fill brings with it. */
  function FillStatus(o: Order, bo: BrokerOrder): OrderStatus {
    if o.filledQty == bo.filledQty then o.status
    else if o.submittedQty > 0.0 && FillAfter(o, bo) >= o.submittedQty then Filled
    else if FillAfter(o, bo) > 0.0 then PartiallyFilled
    else o.status
  }

  /** A status mismatch is restated after the fill, when the broker's word is one of the projection's own. */
  function StatusAfter(o: Order, bo: BrokerOrder): OrderStatus {
    if !Compatible(o.status, bo.status) && ParseStatus(bo.status).Some? then ParseStatus(bo.status).value
    else FillStatus(o, bo)
  }

  function OrderAfterRound(o: Order, answer: Option<BrokerOrder>): Order {
    if !Active(o) || answer.None? then o
    else o.(filledQty := FillAfter(o, answer.value), status := StatusAfter(o, answer.value))
  }

  /** A broker order without a client id is not named like an order of the ledger. */
  predicate NamesApart(c: Comparison) {
    forall bo :: bo in c.bos && !Truthy(bo.clientOrderId) ==> bo.brokerOrderId !in c.orders
  }

  lemma ComparedOrder(oid: string, o: Order, bos: seq<BrokerOrder>)
    requires Active(o) && o.clientOrderId == oid
    ensures OrderAfterAll(FindingsForOrder(oid, o, bos), o, oid) == OrderAfterRound(o, MatchFor(oid, o, bos))
  {
    var fs := FindingsForOrder(oid, o, bos);
    if |fs| == 1 {
      OneFindingRepairs(fs[0], o, oid);
      assert fs == [fs[0]];
    } else {
      TwoFindingsRepair(fs[0], fs[1], o, oid);
      assert fs == [fs[0], fs[1]];
    }
  }

  function RepairedBy(f: Finding, o: Order, oid: string): Order {
    if TargetsOrder(f, oid) then OrderRepaired(f, o) else o
  }

  lemma OneFindingRepairs(f: Finding, o: Order, oid: string)
    ensures OrderAfterAll([f], o, oid) == RepairedBy(f, o, oid)
  {
    assert [f][..0] == [];
  }

  lemma TwoFindingsRepair(f: Finding, g: Finding, o: Order, oid: string)
    ensures OrderAfterAll([f, g], o, oid) == RepairedBy(g, RepairedBy(f, o, oid), oid)
  {
    OneFindingRepairs(f, o, oid);
    assert [f, g][..1] == [f];
  }

  lemma {:induction false} UnknownNameNoOrder(bos: seq<BrokerOrder>, matched: set<string>, orders: map<string, Order>)
    requires forall bo :: bo in bos && !Truthy(bo.clientOrderId) ==> bo.brokerOrderId !in orders
    ensures forall f :: f in UnknownFindings(bos, matched, orders) ==> f.entityId !in orders
  {
    if bos != [] {
      assert bos == bos[..|bos| - 1] + [bos[|bos| - 1]];
      UnknownNameNoOrder(bos[..|bos| - 1], matched, orders);
    }
  }

  lemma {:induction false} OrderFindingsRepairOrMiss(oids: seq<string>, orders: map<string, Order>,
                                                     bos: seq<BrokerOrder>)
    ensures forall f :: f in OrderFindings(oids, orders, bos) && f.outcome != Consistent ==> Repairs(f) || Harmless(f)
  {
    if oids != [] {
      OrderFindingsRepairOrMiss(oids[..|oids| - 1], orders, bos);
    }
  }

  /** Each order after the round, in terms of itself and the broker's answer to it. */
  lemma RoundOnOrder(l: Ledger, c: Comparison, ctx: Context, oid: string)
    requires Round(l, c, ctx) && NamesApart(c) && oid in l.orders
    ensures oid in Corrected(l, c, ctx).orders
    ensures Corrected(l, c, ctx).orders[oid] == OrderAfterRound(l.orders[oid], MatchFor(oid, l.orders[oid], c.bos))
  {
    var o, fs := l.orders[oid], c.Findings();
    var matched := MatchedIds(c.oids, c.orders, c.bos);
    var a, u, p := OrderFindings(c.oids, c.orders, c.bos), UnknownFindings(c.bos, matched, c.orders), c.PositionPart();
    ReportTargetsAreUnique(c);
    PositionPartShape(c);
    UnknownNameNoOrder(c.bos, matched, c.orders);
    OrderFindingsRepairOrMiss(c.oids, c.orders, c.bos);
    assert fs == a + u + p;
    assert forall f :: f in p ==> f.entityType == PositionEntity;
    assert forall f :: f in fs && TargetsOrder(f, oid) ==> f in a;
    CorrectionsOnOrder(l, fs, ctx, oid);
    AfterConcat(a + u, p, o, oid);
    AfterConcat(a, u, o, oid);
    OwnFindingsCount(c.oids, c.orders, c.bos, o, oid);
    Untargeted(u, OrderAfterAll(a, o, oid), oid);
    Untargeted(p, OrderAfterAll(a, o, oid), oid);
    if Active(o) {
      ComparedOrder(oid, o, c.bos);
    }
  }

  // ---- what is still open ------------------------------------------------------------------------------

  /** The fill a mismatch is restated to: a broker fill of zero reads as absent. */
  function Restated(o: Order, bo: BrokerOrder): real {
    Abs(if bo.filledQty != 0.0 then bo.filledQty else o.filledQty)
  }

  /** The restated fill is all that was submitted. */
  predicate Completes(o: Order, bo: BrokerOrder) {
    o.submittedQty > 0.0 && Restated(o, bo) >= o.submittedQty
  }

  /** The broker's word is one of the projection's own and does not fit the order's status. */
  predicate WordIsTaken(o: Order, bo: BrokerOrder) {
    !Compatible(o.status, bo.status) && ParseStatus(bo.status).Some?
  }

  /**
   A fill mismatch outlives the round when the broker's fill is not positive and the order keeps
   working: by the broker's own word where that is taken over, else because the restated fill
   does not complete it.
   */
  predicate FillSurvives(o: Order, bo: BrokerOrder) {
    && o.filledQty != bo.filledQty && bo.filledQty <= 0.0
    && if WordIsTaken(o, bo) then ParseStatus(bo.status).value in {Submitted, Accepted, PartiallyFilled}
       else !Completes(o, bo)
  }

  /**
   A status mismatch outlives the round, or is born in it, when the broker's word is not taken
   over and does not fit what the order is then: what it was where the fills agree, partly
   filled where a restated fill does not complete it.
   */
  predicate StatusSurvives(o: Order, bo: BrokerOrder) {
    && !WordIsTaken(o, bo)
    && if o.filledQty == bo.filledQty then !Compatible(o.status, bo.status)
       else !Completes(o, bo) && !Compatible(PartiallyFilled, bo.status)
  }

  /** The projection's own words have no blanks around them and no capitals. */
  lemma OwnWordIsPlain(s: string)
    requires ParseStatus(s).Some?
    ensures Lower(Strip(s)) == s
  {
    assert s[0] in s && s[|s| - 1] in s;
    assert !IsSpace(s[0]) && !IsSpace(s[|s| - 1]);
    NothingToStrip(s);
    NothingToLower(s);
  }

  lemma ParsedIsCompatible(s: string)
    requires ParseStatus(s).Some?
    ensures Compatible(ParseStatus(s).value, s)
  {
    OwnWordIsPlain(s);
  }

  lemma SurvivalExactly(o: Order, bo: BrokerOrder)
    requires Active(o)
    ensures var o' := OrderAfterRound(o, Some(bo));
      && (Active(o') && o'.filledQty != bo.filledQty <==> FillSurvives(o, bo))
      && (Active(o') && !Compatible(o'.status, bo.status) <==> StatusSurvives(o, bo))
  {
    if ParseStatus(bo.status).Some? {
      ParsedIsCompatible(bo.status);
    }
  }

  /** The order needs no further correction after the round. */
  predicate Settled(oid: string, o: Order, bos: seq<BrokerOrder>) {
    var answer := MatchFor(oid, o, bos);
    answer.Some? && !FillSurvives(o, answer.value) && !StatusSurvives(o, answer.value)
  }

  predicate DistinctBrokerIds(bos: seq<BrokerOrder>) {
    forall i, j :: 0 <= i < j < |bos| ==> bos[i].brokerOrderId != bos[j].brokerOrderId
  }

  /**
   Repair of orders, exactly. Reconciling the corrected ledger against the same broker finds no
   order mismatch if and only if, before the round, every broker order was known and every
   working order had an answer under which neither its fill nor its status mismatch survives.
   */
  lemma OrdersRepairedExactly(l: Ledger, c: Comparison, ctx: Context, again: Comparison)
    requires Round(l, c, ctx) && NamesApart(c) && DistinctBrokerIds(c.bos)
    requires again.Valid() && again.orders == Corrected(l, c, ctx).orders && again.bos == c.bos
    ensures AllConsistent(again.OrderPart()) <==>
      && (forall oid :: oid in l.orders && Active(l.orders[oid]) ==> Settled(oid, l.orders[oid], c.bos))
      && (forall bo :: bo in c.bos ==> Known(bo, l.orders))
  {
    WorkingOrdersAgain(l, c, ctx, again);
    NoStrangersExactly(again);
    StrangersAreUnknown(again.orders, again.bos);
    OrdersStay(l, c, ctx);
    forall bo | bo in c.bos ensures Known(bo, again.orders) <==> Known(bo, l.orders) {
      assert forall k :: k in l.orders ==> again.orders[k].brokerOrderId == l.orders[k].brokerOrderId by {
        forall k | k in l.orders ensures again.orders[k].brokerOrderId == l.orders[k].brokerOrderId {
          RoundOnOrder(l, c, ctx, k);
        }
      }
    }
    AllConsistentConcat(OrderFindings(again.oids, again.orders, again.bos),
                        UnknownFindings(again.bos, MatchedIds(again.oids, again.orders, again.bos), again.orders));
  }

  /** With distinct broker ids an answer is a known broker order, so only unknown ones are strangers. */
  lemma StrangersAreUnknown(orders: map<string, Order>, bos: seq<BrokerOrder>)
    requires DistinctBrokerIds(bos)
    ensures NoStrangers(orders, bos) <==> forall bo :: bo in bos ==> Known(bo, orders)
  {
    forall oid, i | oid in orders && Answers(bos, i, oid, orders[oid]) ensures Known(bos[i], orders) {
    }
    assert forall i, j :: 0 <= i < |bos| && 0 <= j < |bos| && bos[i].brokerOrderId == bos[j].brokerOrderId ==>
      bos[i] == bos[j];
  }

  lemma WorkingOrdersAgain(l: Ledger, c: Comparison, ctx: Context, again: Comparison)
    requires Round(l, c, ctx) && NamesApart(c)
    requires again.Valid() && again.orders == Corrected(l, c, ctx).orders && again.bos == c.bos
    ensures AllConsistent(OrderFindings(again.oids, again.orders, again.bos))
      <==> forall oid :: oid in l.orders && Active(l.orders[oid]) ==> Settled(oid, l.orders[oid], c.bos)
  {
    OrderFindingsConsistent(again.oids, again.orders, again.bos);
    forall oid | oid in l.orders
      ensures oid in again.orders
      ensures (Active(again.orders[oid]) ==> AllConsistent(FindingsForOrder(oid, again.orders[oid], again.bos)))
        <==> (Active(l.orders[oid]) ==> Settled(oid, l.orders[oid], c.bos))
    {
      OneOrderAgain(l, c, ctx, oid);
    }
    OrdersStay(l, c, ctx);
  }

  lemma OneOrderAgain(l: Ledger, c: Comparison, ctx: Context, oid: string)
    requires Round(l, c, ctx) && NamesApart(c) && oid in l.orders
    ensures oid in Corrected(l, c, ctx).orders
    ensures var o, o' := l.orders[oid], Corrected(l, c, ctx).orders[oid];
      (Active(o') ==> AllConsistent(FindingsForOrder(oid, o', c.bos))) <==> (Active(o) ==> Settled(oid, o, c.bos))
  {
    RoundOnOrder(l, c, ctx, oid);
    var o, o' := l.orders[oid], Corrected(l, c, ctx).orders[oid];
    var answer := MatchFor(oid, o, c.bos);
    assert MatchFor(oid, o', c.bos) == answer;
    OneOrderConsistent(oid, o', c.bos);
    if Active(o) && answer.Some? {
      SurvivalExactly(o, answer.value);
    }
  }

  /** A round creates and drops no order. */
  lemma OrdersStay(l: Ledger, c: Comparison, ctx: Context)
    requires |c.Findings()| <= |ctx.ids|
    ensures Corrected(l, c, ctx).orders.Keys == l.orders.Keys
  {
    CorrectionsKeepOrders(l, c.Findings(), ctx);
  }

  lemma {:induction false} CorrectionsKeepOrders(l: Ledger, fs: seq<Finding>, ctx: Context)
    requires |fs| <= |ctx.ids|
    ensures Run(l, CorrectionEvents(fs, ctx)).orders.Keys == l.orders.Keys
  {
    if fs != [] {
      var n := |fs| - 1;
      CorrectionsKeepOrders(l, fs[..n], ctx);
      CorrectionsStep(l, fs, ctx);
      CorrectionKeepsOrders(Run(l, CorrectionEvents(fs[..n], ctx)), fs[n], ctx, ctx.ids[n]);
    }
  }

  lemma CorrectionKeepsOrders(l: Ledger, f: Finding, ctx: Context, id: nat)
    ensures Step(l, CorrectionFor(f, ctx, id)).orders.Keys == l.orders.Keys
  {
    var e := CorrectionFor(f, ctx, id);
    assert e.clientOrderId in l.orders <==> OrderAfter(e, OrderOf(l, e.clientOrderId)).Some?;
  }

  // ---- round after round ---------------------------------------------------------------------------------

  /** The order after `n` rounds against a broker that keeps giving the same answer. */
  function Rounds(o: Order, answer: Option<BrokerOrder>, n: nat): Order {
    if n == 0 then o else OrderAfterRound(Rounds(o, answer, n - 1), answer)
  }

  /**
   The broker's fill differs and is not positive, the restated fill does not complete the order,
   and the broker's word is the projection's own for an order without fills.
   */
  predicate Oscillates(o: Order, bo: BrokerOrder) {
    && o.filledQty != bo.filledQty && bo.filledQty <= 0.0 && !Completes(o, bo)
    && ParseStatus(bo.status) in {Some(Submitted), Some(Accepted)}
  }

  lemma OwnWordFits(s: string)
    requires ParseStatus(s).Some?
    ensures var own := ParseStatus(s).value;
      forall status :: status in {Submitted, Accepted, PartiallyFilled} ==>
        (Compatible(status, s) <==> status == own || (status == Accepted && own == PartiallyFilled))
  {
    OwnWordIsPlain(s);
  }

  lemma ThreeRounds(o: Order, bo: BrokerOrder)
    requires Active(o)
    ensures var one := OrderAfterRound(o, Some(bo));
      var two := OrderAfterRound(one, Some(bo));
      var three := OrderAfterRound(two, Some(bo));
      if Oscillates(o, bo) then o != one && one != two && three == one else three == two
  {
    if ParseStatus(bo.status).Some? {
      OwnWordFits(bo.status);
    }
  }

  lemma FirstRounds(o: Order, answer: Option<BrokerOrder>)
    ensures Rounds(o, answer, 0) == o
    ensures Rounds(o, answer, 1) == OrderAfterRound(o, answer)
    ensures Rounds(o, answer, 2) == OrderAfterRound(Rounds(o, answer, 1), answer)
    ensures Rounds(o, answer, 3) == OrderAfterRound(Rounds(o, answer, 2), answer)
  {
  }

  lemma {:induction false} RoundsRepeat(o: Order, answer: Option<BrokerOrder>, n: nat)
    requires n >= 2
    ensures Rounds(o, answer, 3) == Rounds(o, answer, 2) ==> Rounds(o, answer, n) == Rounds(o, answer, 2)
    ensures Rounds(o, answer, 3) == Rounds(o, answer, 1) ==>
      Rounds(o, answer, n) == Rounds(o, answer, 2) || Rounds(o, answer, n) == Rounds(o, answer, 1)
  {
    FirstRounds(o, answer);
    if n > 2 {
      RoundsRepeat(o, answer, n - 1);
    }
  }

  /** Another round changes the order that has been through `n`. */
  predicate Restless(o: Order, answer: Option<BrokerOrder>, n: nat) {
    Rounds(o, answer, n + 1) != Rounds(o, answer, n)
  }

  /**
   Repeated rounds, exactly. Under an unchanging answer a working order is at rest after two
   rounds if it does not oscillate, and otherwise every round changes it and every second one
   undoes the one before.
   */
  lemma {:induction false} RoundsSettleExactly(o: Order, bo: BrokerOrder)
    requires Active(o)
    ensures (exists n: nat :: !Restless(o, Some(bo), n)) <==> !Oscillates(o, bo)
    ensures !Oscillates(o, bo) ==> forall n: nat :: n >= 2 ==> Rounds(o, Some(bo), n) == Rounds(o, Some(bo), 2)
    ensures Oscillates(o, bo) ==> forall n: nat :: n >= 1 ==> Rounds(o, Some(bo), n + 2) == Rounds(o, Some(bo), n)
  {
    ThreeRounds(o, bo);
    FirstRounds(o, Some(bo));
    if Oscillates(o, bo) {
      forall n: nat ensures Restless(o, Some(bo), n) {
        OscillatesOnAndOn(o, bo, n);
      }
      forall n: nat | n >= 1 ensures Rounds(o, Some(bo), n + 2) == Rounds(o, Some(bo), n) {
        OscillatesOnAndOn(o, bo, n);
      }
    } else {
      assert !Restless(o, Some(bo), 2);
      forall n: nat | n >= 2 ensures Rounds(o, Some(bo), n) == Rounds(o, Some(bo), 2) {
        RoundsRepeat(o, Some(bo), n);
      }
    }
  }

  lemma {:induction false} OscillatesOnAndOn(o: Order, bo: BrokerOrder, n: nat)
    requires Active(o) && Oscillates(o, bo)
    ensures Restless(o, Some(bo), n)
    ensures n >= 1 ==> Rounds(o, Some(bo), n + 2) == Rounds(o, Some(bo), n)
  {
    ThreeRounds(o, bo);
    FirstRounds(o, Some(bo));
    if n > 1 {
      OscillatesOnAndOn(o, bo, n - 1);
      assert Rounds(o, Some(bo), n + 1) == Rounds(o, Some(bo), n - 1);
    }
  }

  /** A ledger corrected again and again against the same list of broker orders. */
  ghost predicate Chain(ls: seq<Ledger>, cs: seq<Comparison>, ctxs: seq<Context>, bos: seq<BrokerOrder>) {
    && |ls| == |cs| + 1 == |ctxs| + 1
    && forall i :: 0 <= i < |cs| ==> Link(ls[i], cs[i], ctxs[i], ls[i + 1], bos)
  }

  ghost predicate Link(l: Ledger, c: Comparison, ctx: Context, next: Ledger, bos: seq<BrokerOrder>) {
    Round(l, c, ctx) && NamesApart(c) && c.bos == bos && next == Corrected(l, c, ctx)
  }

  lemma LinkOnOrder(l: Ledger, c: Comparison, ctx: Context, next: Ledger, bos: seq<BrokerOrder>, oid: string)
    requires Link(l, c, ctx, next, bos)
    ensures oid in next.orders <==> oid in l.orders
    ensures oid in l.orders ==> next.orders[oid] == OrderAfterRound(l.orders[oid], MatchFor(oid, l.orders[oid], bos))
  {
    OrdersStay(l, c, ctx);
    if oid in l.orders {
      RoundOnOrder(l, c, ctx, oid);
    }
  }

  /** Each order of a chain, in terms of what it was and the broker's answer to it. */
  lemma {:induction false} RoundsOnOrder(ls: seq<Ledger>, cs: seq<Comparison>, ctxs: seq<Context>,
                                         bos: seq<BrokerOrder>, oid: string, n: nat)
    requires Chain(ls, cs, ctxs, bos) && n < |ls|
    ensures oid in ls[n].orders <==> oid in ls[0].orders
    ensures oid in ls[0].orders ==>
      ls[n].orders[oid] == Rounds(ls[0].orders[oid], MatchFor(oid, ls[0].orders[oid], bos), n)
  {
    if n > 0 {
      RoundsOnOrder(ls, cs, ctxs, bos, oid, n - 1);
      LinkOnOrder(ls[n - 1], cs[n - 1], ctxs[n - 1], ls[n], bos, oid);
      if oid in ls[0].orders {
        var o := ls[0].orders[oid];
        NextRound(o, ls[n - 1].orders[oid], ls[n].orders[oid], MatchFor(oid, o, bos), bos, oid, n);
      }
    }
  }

  lemma {:induction false} NextRound(o: Order, before: Order, after: Order, answer: Option<BrokerOrder>,
                                     bos: seq<BrokerOrder>, oid: string, n: nat)
    requires n > 0 && answer == MatchFor(oid, o, bos) && before == Rounds(o, answer, n - 1)
    requires after == OrderAfterRound(before, MatchFor(oid, before, bos))
    ensures after == Rounds(o, answer, n)
  {
    RoundsKeepBrokerId(o, answer, n - 1);
    SameAnswer(o, before, bos, oid);
  }

  lemma {:induction false} SameAnswer(o: Order, o': Order, bos: seq<BrokerOrder>, oid: string)
    requires o'.brokerOrderId == o.brokerOrderId
    ensures MatchFor(oid, o', bos) == MatchFor(oid, o, bos)
  {
  }

  lemma {:induction false} RoundsKeepBrokerId(o: Order, answer: Option<BrokerOrder>, n: nat)
    ensures Rounds(o, answer, n).brokerOrderId == o.brokerOrderId
  {
    if n > 0 {
      RoundsKeepBrokerId(o, answer, n - 1);
    }
  }

  /** Some working order of the ledger oscillates under the broker's answer to it. */
  ghost predicate AnyOscillates(orders: map<string, Order>, bos: seq<BrokerOrder>) {
    exists oid :: oid in orders && OscillatesIn(oid, orders[oid], bos)
  }

  predicate OscillatesIn(oid: string, o: Order, bos: seq<BrokerOrder>) {
    Active(o) && MatchFor(oid, o, bos).Some? && Oscillates(o, MatchFor(oid, o, bos).value)
  }

  lemma LateRound(oid: string, o: Order, bos: seq<BrokerOrder>, n: nat)
    requires n >= 2
    ensures Restless(o, MatchFor(oid, o, bos), n) <==> OscillatesIn(oid, o, bos)
  {
    var answer := MatchFor(oid, o, bos);
    if Active(o) && answer.Some? {
      RoundsSettleExactly(o, answer.value);
      assert OscillatesIn(oid, o, bos) ==> Restless(o, answer, n);
      assert !OscillatesIn(oid, o, bos) ==> Rounds(o, answer, n) == Rounds(o, answer, 2) == Rounds(o, answer, n + 1);
    } else {
      FirstRounds(o, answer);
      RoundsRepeat(o, answer, n);
      RoundsRepeat(o, answer, n + 1);
    }
  }

  /** From the second round on, a further round changes some order if and only if one oscillates. */
  lemma LedgerSettlesExactly(ls: seq<Ledger>, cs: seq<Comparison>, ctxs: seq<Context>, bos: seq<BrokerOrder>, n: nat)
    requires Chain(ls, cs, ctxs, bos) && 2 <= n < |cs|
    ensures ls[n + 1].orders == ls[n].orders <==> !AnyOscillates(ls[0].orders, bos)
  {
    forall oid
      ensures oid in ls[n].orders <==> oid in ls[0].orders
      ensures oid in ls[n + 1].orders <==> oid in ls[0].orders
      ensures oid in ls[0].orders ==>
        (ls[n + 1].orders[oid] != ls[n].orders[oid] <==> OscillatesIn(oid, ls[0].orders[oid], bos))
    {
      RoundsOnOrder(ls, cs, ctxs, bos, oid, n);
      RoundsOnOrder(ls, cs, ctxs, bos, oid, n + 1);
      if oid in ls[0].orders {
        LateRound(oid, ls[0].orders[oid], bos, n);
      }
    }
    assert ls[n + 1].orders.Keys == ls[n].orders.Keys;
  }

  /** For instance: a partly filled order and a broker that calls it submitted and filled nothing. */
  lemma {:induction false} SubmittedAndPartlyFilledInTurn(o: Order, bo: BrokerOrder)
    requires o.status == PartiallyFilled && 0.0 < o.filledQty < o.submittedQty
    requires bo.filledQty == 0.0 && bo.status == "submitted"
    ensures Rounds(o, Some(bo), 1) == o.(status := Submitted)
    ensures Rounds(o, Some(bo), 2) == o
  {
    OwnWordFits(bo.status);
    FirstRounds(o, Some(bo));
    assert OrderAfterRound(o, Some(bo)) == o.(status := Submitted);
  }

  // ---- a fill that is never repaired ---------------------------------------------------------------------

  /** A submission and a partial fill of the same order. */
  predicate PartlyFills(first: LedgerEvent, fill: LedgerEvent) {
    && first.eventType.OrderSubmissionRequested? && fill.eventType.PartialFill? && fill.IsEffectiveFill()
    && fill.quantity < first.quantity
    && first.clientOrderId == fill.clientOrderId != "" && first.contractId == fill.contractId
    && first.contractId != first.clientOrderId
    && first.eventId != fill.eventId && first.key != fill.key
    && !("recon:" <= first.key) && !("recon:" <= fill.key)
  }

  lemma PartlyFilledOrder(first: LedgerEvent, fill: LedgerEvent)
    requires PartlyFills(first, fill)
    ensures var o := OrderAfter(fill, OrderAfter(first, None));
      && o.Some? && o.value.clientOrderId == first.clientOrderId && o.value.status == PartiallyFilled
      && o.value.filledQty == fill.quantity && o.value.submittedQty == first.quantity
    ensures AppliedQty(first, None) == 0.0 && AppliedQty(fill, OrderAfter(first, None)) == fill.quantity
  {
  }

  lemma PartlyFilledPosition(first: LedgerEvent, fill: LedgerEvent)
    requires PartlyFills(first, fill)
    ensures PositionAfter(first, 0.0, None) == None
    ensures var p := PositionAfter(fill, fill.quantity, None);
      p.Some? && p.value.open && p.value.quantity == fill.Signed(fill.quantity) != 0.0
  {
  }

  /** The ledger those two events project to. */
  lemma PartlyFilledLedger(first: LedgerEvent, fill: LedgerEvent)
    requires PartlyFills(first, fill)
    ensures var l, o := Run(EMPTY, [first, fill]), OrderAfter(fill, OrderAfter(first, None));
      && o.Some? && l.orders == map[first.clientOrderId := o.value]
      && l.positions.Keys == {first.contractId}
      && l.seenIds == {first.eventId, fill.eventId} && l.seenKeys == {first.key, fill.key}
  {
    PartlyFilledOrder(first, fill);
    PartlyFilledPosition(first, fill);
    assert [first, fill][..1] == [first] && [first][..0] == [];
    var l1 := Step(EMPTY, first);
    assert Run(EMPTY, []) == EMPTY;
    assert Run(EMPTY, [first]) == l1;
    assert l1 == Ledger(map[first.clientOrderId := OrderAfter(first, None).value], map[], {first.eventId}, {first.key});
    assert !IsDuplicate(l1, fill);
  }

  /** The comparison with a broker that lists one order, knows it, and holds nothing. */
  lemma OneOrderReport(c: Comparison, o: Order, oid: string, k: string, bo: BrokerOrder)
    requires oid != "" && bo.clientOrderId == Some(oid) && Active(o) && c.orders == map[oid := o]
    requires c.oids == [oid] && c.cids == [k] && c.bos == [bo] && c.bps == []
    requires o.filledQty != bo.filledQty && Compatible(o.status, bo.status)
    ensures MatchFor(oid, o, c.bos) == Some(bo)
    ensures |c.Findings()| <= 2 && NamesApart(c)
  {
    assert [bo][..0] == [] && [oid][..0] == [] && [k][..0] == [];
    assert ByClient([bo]) == map[oid := bo];
    assert OrderFindings([], c.orders, c.bos) == [];
    assert OrderFindings([oid], c.orders, c.bos) == FindingsForOrder(oid, o, c.bos);
    assert UnknownFindings([], MatchedIds(c.oids, c.orders, c.bos), c.orders) == [];
    assert PositionFindings([], c.positions, c.bps) == [];
  }

  lemma OpenIsCompatible()
    ensures Compatible(PartiallyFilled, "open") && ParseStatus("open").None?
  {
    NothingToStrip("open");
    NothingToLower("open");
  }

  /** A ledger of one working order and one position, with its comparison, is ready for a round. */
  lemma OneOrderRound(l: Ledger, c: Comparison, ctx: Context, o: Order, k: string, bo: BrokerOrder)
    requires o.clientOrderId != "" && bo.clientOrderId == Some(o.clientOrderId) && Active(o)
    requires l.orders == map[o.clientOrderId := o] && l.positions.Keys == {k} && k != o.clientOrderId
    requires c == Comparison(l.orders, Frozen(l.positions), [o.clientOrderId], [k], [bo], [])
    requires o.filledQty != bo.filledQty && Compatible(o.status, bo.status)
    requires |ctx.ids| == 2 && ctx.ids[0] != ctx.ids[1] && ctx.ids[0] !in l.seenIds && ctx.ids[1] !in l.seenIds
    requires forall key :: key in l.seenKeys ==> !("recon:" <= key)
    ensures Round(l, c, ctx) && NamesApart(c) && MatchFor(o.clientOrderId, o, c.bos) == Some(bo)
  {
    OneOrderReport(c, o, o.clientOrderId, k, bo);
    CorrectionKeysAreFresh(l, c.Findings(), ctx);
    assert c.Valid();
  }

  lemma {:induction false} FillStaysDifferent(l: Ledger, c: Comparison, ctx: Context, oid: string, bo: BrokerOrder)
    requires Round(l, c, ctx) && NamesApart(c) && oid in l.orders && Active(l.orders[oid])
    requires MatchFor(oid, l.orders[oid], c.bos) == Some(bo) && FillSurvives(l.orders[oid], bo)
    ensures FillDiffers(oid, Corrected(l, c, ctx).orders, c.bos)
  {
    RoundOnOrder(l, c, ctx, oid);
    SurvivalExactly(l.orders[oid], bo);
  }

  /** Submitted, partly filled, and a broker that calls the order open, filled nothing and holds nothing. */
  lemma ZeroFillKeepsItsMismatch(first: LedgerEvent, fill: LedgerEvent, bo: BrokerOrder, ctx: Context)
    returns (l: Ledger, c: Comparison)
    requires PartlyFills(first, fill)
    requires bo.clientOrderId == Some(first.clientOrderId) && bo.filledQty == 0.0 && bo.status == "open"
    requires |ctx.ids| == 2 && ctx.ids[0] != ctx.ids[1]
    requires first.eventId !in ctx.ids && fill.eventId !in ctx.ids
    ensures l == Run(EMPTY, [first, fill]) && Round(l, c, ctx) && c.bos == [bo] && c.bps == []
    ensures FillDiffers(first.clientOrderId, l.orders, c.bos)
    ensures FillDiffers(first.clientOrderId, Corrected(l, c, ctx).orders, c.bos)
  {
    PartlyFilledOrder(first, fill);
    PartlyFilledLedger(first, fill);
    OpenIsCompatible();
    var oid, k := first.clientOrderId, first.contractId;
    l := Run(EMPTY, [first, fill]);
    c := Comparison(l.orders, Frozen(l.positions), [oid], [k], [bo], []);
    OneOrderRound(l, c, ctx, l.orders[oid], k, bo);
    FillStaysDifferent(l, c, ctx, oid, bo);
  }

  /** For instance: ten submitted, five filled, and a broker order open with nothing filled. */
  lemma {:induction false} TenFiveKeepsItsMismatch()
    returns (es: seq<LedgerEvent>, l: Ledger, c: Comparison, ctx: Context)
    ensures l == Run(EMPTY, es) && Round(l, c, ctx)
    ensures "o" in l.orders && l.orders["o"].submittedQty == 10.0 && l.orders["o"].filledQty == 5.0
    ensures FillDiffers("o", l.orders, c.bos) && FillDiffers("o", Corrected(l, c, ctx).orders, c.bos)
  {
    var first: LedgerEvent := EventRecord(
      0, "acct", "o", None, "c", Buy, 10.0, None, 0, None, "a", OrderSubmissionRequested, None, NO_METADATA,
      "session", None, 0);
    var fill: LedgerEvent := EventRecord(
      1, "acct", "o", None, "c", Buy, 5.0, Some(1.0), 0, None, "b", PartialFill, None, NO_METADATA,
      "session", None, 0);
    var bo := BrokerOrder("b1", Some("o"), "c", Buy, 10.0, 0.0, "open");
    es := [first, fill];
    ctx := Context("r", "acct", "session", None, 0, 0, [2, 3]);
    DifferentNames();
    l, c := ZeroFillKeepsItsMismatch(first, fill, bo, ctx);
    PartlyFilledOrder(first, fill);
    PartlyFilledLedger(first, fill);
  }

  lemma DifferentNames()
    ensures "a" != "b" && "o" != "c" && "o" != "" && !("recon:" <= "a") && !("recon:" <= "b")
  {
    assert "a"[0] == 'a' && "b"[0] == 'b' && "o"[0] == 'o' && "c"[0] == 'c';
  }

  /** A ledger without correction keys has seen no key of a report. */
  lemma CorrectionKeysAreFresh(l: Ledger, fs: seq<Finding>, ctx: Context)
    requires forall key :: key in l.seenKeys ==> !("recon:" <= key)
    ensures forall f :: f in fs ==> KeyFor(ctx.reportId, f) !in l.seenKeys
  {
    forall f | f in fs ensures "recon:" <= KeyFor(ctx.reportId, f) {
      PrefixOfSum("recon:", ctx.reportId + (":" + (OutcomeValue(f.outcome) + ":" + f.entityId)));
    }
  }

  lemma PrefixOfSum(a: string, b: string)
    ensures a <= a + b
  {
  }
}
