/** Cash conservation: what the projector's running averages and realised profit add up to. */
module Accounting {
  import opened Options
  import opened LedgerEvents
  import opened Projection

  /** The part of a signed fill that a position of size `q` takes: an opposing fill stops at zero. */
  function EffectiveQty(q: real, signed: real): real {
    if q == 0.0 || (q > 0.0) == (signed > 0.0) then signed
    else if Abs(signed) <= Abs(q) then signed
    else -q
  }

  /** The signed quantity event `e` moves contract `c` by, as a fill, from ledger `l`. */
  function Effect(l: Ledger, e: LedgerEvent, c: string): real {
    var applied := AppliedQty(e, OrderOf(l, e.clientOrderId));
    if IsDuplicate(l, e) || e.contractId != c || applied <= 0.0 then 0.0
    else EffectiveQty(Quantity(l, c), e.Signed(applied))
  }

  function Outlay(e: LedgerEvent, moved: real): real {
    moved * e.Price()
  }

  function CashFlow(l: Ledger, e: LedgerEvent, c: string): real {
    -Outlay(e, Effect(l, e, c))
  }

  /** Cash received minus cash paid over the fills that moved contract `c`, per unit multiplier. */
  function NetCash(es: seq<LedgerEvent>, c: string): real {
    if es == [] then 0.0
    else NetCash(es[..|es| - 1], c) + CashFlow(Run(EMPTY, es[..|es| - 1]), es[|es| - 1], c)
  }

  /** Net quantity over the fills that moved contract `c`. */
  function NetQuantity(es: seq<LedgerEvent>, c: string): real {
    if es == [] then 0.0
    else NetQuantity(es[..|es| - 1], c) + Effect(Run(EMPTY, es[..|es| - 1]), es[|es| - 1], c)
  }

  predicate Uncorrected(es: seq<LedgerEvent>, c: string) {
    forall e :: e in es && e.contractId == c ==> !IsPositionCorrection(e)
  }

  /** A position is open exactly when it holds something, and then it has a cost. */
  predicate Coherent(p: Position) {
    && (p.open <==> p.quantity != 0.0)
    && (p.open <==> p.avgPrice.Some?)
  }

  function CostBasis(p: Position): real {
    p.quantity * p.avgPrice.GetOr(0.0)
  }

  lemma GrowingCost(q: real, avg: real, signed: real, price: real)
    requires q != 0.0 && signed != 0.0 && (q > 0.0) == (signed > 0.0)
    ensures (q + signed) * WeightedMean(avg, Abs(q), price, Abs(signed)) == q * avg + signed * price
  {
    var sum := Abs(q) + Abs(signed);
    var cost := avg * Abs(q) + price * Abs(signed);
    assert sum * (cost / sum) == cost;
    if q > 0.0 {
      assert q + signed == sum;
    } else {
      assert q + signed == -sum;
      assert (-sum) * (cost / sum) == -cost;
    }
  }

  lemma ClosingGain(q: real, avg: real, price: real, closing: real)
    ensures (price - avg) * closing * MULTIPLIER == MULTIPLIER * ((q - closing) * avg - q * avg + closing * price)
    ensures (avg - price) * closing * MULTIPLIER == MULTIPLIER * ((q + closing) * avg - q * avg - closing * price)
  {
  }

  /** Profit so far is the cash that moved plus the cost of what is still held. */
  predicate Balanced(p: Position, cash: real) {
    && Coherent(p)
    && p.realizedPnl == MULTIPLIER * (cash + CostBasis(p))
  }

  lemma OpeningFillBalances(e: LedgerEvent, p: Position, applied: real, cash: real)
    requires Balanced(p, cash) && applied > 0.0 && p.quantity == 0.0
    ensures Balanced(FilledPosition(e, p, applied), cash - e.Signed(applied) * e.Price())
  {
    var p' := FilledPosition(e, p, applied);
    assert CostBasis(p) == 0.0;
    assert CostBasis(p') == e.Signed(applied) * e.Price();
  }

  lemma GrowingFillBalances(e: LedgerEvent, p: Position, applied: real, cash: real)
    requires Balanced(p, cash) && applied > 0.0
    requires p.quantity != 0.0 && (p.quantity > 0.0) == (e.Signed(applied) > 0.0)
    ensures Balanced(FilledPosition(e, p, applied), cash - e.Signed(applied) * e.Price())
  {
    var p', signed := FilledPosition(e, p, applied), e.Signed(applied);
    GrowingCost(p.quantity, p.avgPrice.value, signed, e.Price());
    assert CostBasis(p') == CostBasis(p) + signed * e.Price();
  }

  lemma ClosingFillBalances(e: LedgerEvent, p: Position, applied: real, cash: real)
    requires Balanced(p, cash) && applied > 0.0
    requires p.quantity != 0.0 && (p.quantity > 0.0) != (e.Signed(applied) > 0.0)
    ensures var moved := EffectiveQty(p.quantity, e.Signed(applied));
      Balanced(FilledPosition(e, p, applied), cash - moved * e.Price())
  {
    var p', avg, price := FilledPosition(e, p, applied), p.avgPrice.value, e.Price();
    var closing := Min(Abs(p.quantity), applied);
    var moved := EffectiveQty(p.quantity, e.Signed(applied));
    ClosingGain(p.quantity, avg, price, closing);
    var flow, cost, cost' := closing * price, p.quantity * avg, p'.quantity * avg;
    assert CostBasis(p') == cost';
    if p.quantity > 0.0 {
      assert moved == -closing;
      assert moved * price == -flow;
    } else {
      assert moved == closing;
    }
  }

  lemma FillMoves(e: LedgerEvent, p: Position, applied: real)
    requires applied > 0.0
    ensures FilledPosition(e, p, applied).quantity == p.quantity + EffectiveQty(p.quantity, e.Signed(applied))
  {
  }

  /** One fill moves cash, cost and profit so that they stay in balance. */
  lemma FillBalances(e: LedgerEvent, p: Position, applied: real, cash: real)
    requires Balanced(p, cash) && applied > 0.0
    ensures var moved := EffectiveQty(p.quantity, e.Signed(applied));
      Balanced(FilledPosition(e, p, applied), cash - moved * e.Price())
  {
    if p.quantity == 0.0 {
      OpeningFillBalances(e, p, applied, cash);
    } else if (p.quantity > 0.0) == (e.Signed(applied) > 0.0) {
      GrowingFillBalances(e, p, applied, cash);
    } else {
      ClosingFillBalances(e, p, applied, cash);
    }
  }

  predicate InBalance(l: Ledger, cash: real, net: real, c: string) {
    match PositionOf(l, c)
    case None => cash == 0.0 && net == 0.0
    case Some(p) => p.quantity == net && Balanced(p, cash)
  }

  lemma UnmovedStays(l: Ledger, e: LedgerEvent, cash: real, net: real, c: string)
    requires InBalance(l, cash, net, c)
    requires e.contractId == c ==> !IsPositionCorrection(e)
    requires IsDuplicate(l, e) || e.contractId != c || AppliedQty(e, OrderOf(l, e.clientOrderId)) <= 0.0
    ensures InBalance(Step(l, e), cash, net, c)
  {
    var p, p' := PositionOf(l, c), PositionOf(Step(l, e), c);
    if p.Some? {
      assert p'.Some? && p'.value == p.value.(fees := p'.value.fees);
      assert CostBasis(p'.value) == CostBasis(p.value);
    } else if p'.Some? {
      assert p'.value == NewPosition(c).(fees := p'.value.fees);
      assert CostBasis(p'.value) == 0.0;
    }
  }

  lemma FeesKeepBalance(e: LedgerEvent, p: Position, cash: real)
    requires Balanced(p, cash)
    ensures var paid := PaidPosition(e, Some(p));
      paid.Some? && paid.value.quantity == p.quantity && Balanced(paid.value, cash)
  {
    var paid := PaidPosition(e, Some(p)).value;
    assert paid == p.(fees := paid.fees);
    assert CostBasis(paid) == CostBasis(p);
  }

  lemma StepFills(l: Ledger, e: LedgerEvent)
    requires !IsDuplicate(l, e) && AppliedQty(e, OrderOf(l, e.clientOrderId)) > 0.0
    ensures PositionOf(Step(l, e), e.contractId)
      == PaidPosition(e, Some(FilledPosition(e, EnsuredPosition(e.contractId, PositionOf(l, e.contractId)),
                                             AppliedQty(e, OrderOf(l, e.clientOrderId)))))
  {
  }

  lemma EffectOfFill(l: Ledger, e: LedgerEvent)
    requires !IsDuplicate(l, e) && AppliedQty(e, OrderOf(l, e.clientOrderId)) > 0.0
    ensures var held := EnsuredPosition(e.contractId, PositionOf(l, e.contractId)).quantity;
      var moved := EffectiveQty(held, e.Signed(AppliedQty(e, OrderOf(l, e.clientOrderId))));
      && Effect(l, e, e.contractId) == moved
      && CashFlow(l, e, e.contractId) == -Outlay(e, moved)
  {
  }

  lemma PaidFillBalances(e: LedgerEvent, p: Position, applied: real, cash: real)
    requires Balanced(p, cash) && applied > 0.0
    ensures var moved := EffectiveQty(p.quantity, e.Signed(applied));
      var paid := PaidPosition(e, Some(FilledPosition(e, p, applied)));
      paid.Some? && paid.value.quantity == p.quantity + moved && Balanced(paid.value, cash - Outlay(e, moved))
  {
    var moved := EffectiveQty(p.quantity, e.Signed(applied));
    FillBalances(e, p, applied, cash);
    FillMoves(e, p, applied);
    FeesKeepBalance(e, FilledPosition(e, p, applied), cash - Outlay(e, moved));
  }

  lemma FillLandsInBalance(l: Ledger, e: LedgerEvent, applied: real, cash: real, net: real,
                           l': Ledger, flow: real, moved: real)
    requires InBalance(l, cash, net, e.contractId) && applied > 0.0
    requires moved
      == EffectiveQty(EnsuredPosition(e.contractId, PositionOf(l, e.contractId)).quantity, e.Signed(applied))
    requires flow == -Outlay(e, moved)
    requires PositionOf(l', e.contractId)
      == PaidPosition(e, Some(FilledPosition(e, EnsuredPosition(e.contractId, PositionOf(l, e.contractId)), applied)))
    ensures InBalance(l', cash + flow, net + moved, e.contractId)
  {
    var p := EnsuredPosition(e.contractId, PositionOf(l, e.contractId));
    assert Balanced(p, cash) && p.quantity == net by {
      assert CostBasis(NewPosition(e.contractId)) == 0.0;
    }
    PaidFillBalances(e, p, applied, cash);
  }

  lemma FillStays(l: Ledger, e: LedgerEvent, cash: real, net: real, l': Ledger, flow: real, moved: real)
    requires InBalance(l, cash, net, e.contractId)
    requires !IsDuplicate(l, e) && AppliedQty(e, OrderOf(l, e.clientOrderId)) > 0.0
    requires l' == Step(l, e) && flow == CashFlow(l, e, e.contractId) && moved == Effect(l, e, e.contractId)
    ensures InBalance(l', cash + flow, net + moved, e.contractId)
  {
    StepFills(l, e);
    EffectOfFill(l, e);
    FillLandsInBalance(l, e, AppliedQty(e, OrderOf(l, e.clientOrderId)), cash, net, l', flow, moved);
  }

  lemma StepBalances(l: Ledger, e: LedgerEvent, cash: real, net: real, c: string)
    requires InBalance(l, cash, net, c)
    requires e.contractId == c ==> !IsPositionCorrection(e)
    ensures InBalance(Step(l, e), cash + CashFlow(l, e, c), net + Effect(l, e, c), c)
  {
    if IsDuplicate(l, e) || e.contractId != c || AppliedQty(e, OrderOf(l, e.clientOrderId)) <= 0.0 {
      UnmovedStays(l, e, cash, net, c);
      assert CashFlow(l, e, c) == 0.0;
    } else {
      FillStays(l, e, cash, net, Step(l, e), CashFlow(l, e, c), Effect(l, e, c));
    }
  }

  /**
   The accounting identity, for every stream without a position correction on `c`:
   realised profit is all cash that moved plus what the open quantity still cost.
   */
  lemma {:induction false} AccountingIdentity(es: seq<LedgerEvent>, c: string)
    requires Uncorrected(es, c)
    ensures InBalance(Run(EMPTY, es), NetCash(es, c), NetQuantity(es, c), c)
  {
    if es != [] {
      var front := es[..|es| - 1];
      assert forall e :: e in front ==> e in es;
      AccountingIdentity(front, c);
      StepBalances(Run(EMPTY, front), es[|es| - 1], NetCash(front, c), NetQuantity(front, c), c);
    }
  }

  /** No single event takes a contract from long to short or back, in any ledger whatever. */
  lemma NoSignFlip(l: Ledger, e: LedgerEvent, c: string)
    requires e.contractId == c ==> !IsPositionCorrection(e)
    ensures Quantity(l, c) * Quantity(Step(l, e), c) >= 0.0
  {
    var q, q' := Quantity(l, c), Quantity(Step(l, e), c);
    assert q > 0.0 ==> q' >= 0.0;
    assert q < 0.0 ==> q' <= 0.0;
  }

  /** A closing fill reduces the position by no more than it held, though the order counts it all. */
  lemma ClosingFillIsClamped(l: Ledger, e: LedgerEvent, p: Position)
    requires !IsDuplicate(l, e) && PositionOf(l, e.contractId) == Some(p)
    requires AppliedQty(e, OrderOf(l, e.clientOrderId)) > 0.0
    requires p.quantity * e.Signed(1.0) < 0.0
    ensures var applied := AppliedQty(e, OrderOf(l, e.clientOrderId));
      && Abs(Quantity(Step(l, e), e.contractId)) == Abs(p.quantity) - Min(Abs(p.quantity), applied)
      && OrderOf(Step(l, e), e.clientOrderId).Some?
      && Step(l, e).orders[e.clientOrderId].filledQty
         == (if e.clientOrderId in l.orders then l.orders[e.clientOrderId].filledQty else 0.0) + applied
  {
  }
}
