/** What a position's fields say about the stream that moved it, fill by fill and for every stream. */
module PositionLaws {
  import opened Options
  import opened LedgerEvents
  import opened Projection
  import opened Accounting
  import opened OrderLaws

  /** The event is acted on and names the contract. */
  predicate Reaches(l: Ledger, e: LedgerEvent, c: string) {
    e.contractId == c && e.eventId !in l.seenIds && e.key !in l.seenKeys
  }

  /** A fill that its order has room for. */
  predicate FillsPosition(l: Ledger, e: LedgerEvent, c: string) {
    Reaches(l, e, c) && Lands(e, OrderOf(l, e.clientOrderId))
  }

  lemma TakenIsApplied(e: LedgerEvent, o: Option<Order>)
    ensures Taken(e, o) == AppliedQty(e, o)
  {
  }

  lemma PositionStep(l: Ledger, e: LedgerEvent, c: string)
    ensures PositionOf(Step(l, e), c) ==
      if !Reaches(l, e, c) then PositionOf(l, c)
      else PositionAfter(e, Taken(e, OrderOf(l, e.clientOrderId)), PositionOf(l, c))
  {
    TakenIsApplied(e, OrderOf(l, e.clientOrderId));
  }

  // ---- fees --------------------------------------------------------------------------------------

  function PositionFees(l: Ledger, c: string): real {
    if c in l.positions then l.positions[c].fees else 0.0
  }

  /**
   The events a position is charged for: every one that is acted on while it exists, ineffective
   fills apart, and those that create it: fills, its corrections, notices and fee records.
   */
  predicate ChargesPosition(l: Ledger, e: LedgerEvent, c: string) {
    && Reaches(l, e, c)
    && (e.IsFill() ==> e.IsEffectiveFill())
    && (|| c in l.positions || FillsPosition(l, e, c) || Restates(l, e, c)
        || e.IsPositionNotice() || e.eventType.FeeRecorded?)
  }

  function PositionCharges(es: seq<LedgerEvent>, c: string): real {
    if es == [] then 0.0
    else
      var front, e := es[..|es| - 1], es[|es| - 1];
      PositionCharges(front, c) + if ChargesPosition(Run(EMPTY, front), e, c) then e.Fee() else 0.0
  }

  lemma OnePositionFee(l: Ledger, e: LedgerEvent, c: string)
    ensures PositionFees(Step(l, e), c)
      == PositionFees(l, c) + if ChargesPosition(l, e, c) then e.Fee() else 0.0
  {
    PositionStep(l, e, c);
    assert forall m: Ledger ::
      PositionFees(m, c) == if PositionOf(m, c).Some? then PositionOf(m, c).value.fees else 0.0;
  }

  /** A position's fees are the sum over the events it is charged for. */
  lemma {:induction false} PositionFeesAddUp(es: seq<LedgerEvent>, c: string)
    ensures PositionFees(Run(EMPTY, es), c) == PositionCharges(es, c)
  {
    if es != [] {
      PositionFeesAddUp(es[..|es| - 1], c);
      OnePositionFee(Run(EMPTY, es[..|es| - 1]), es[|es| - 1], c);
    }
  }

  // ---- open, and the frozen view ---------------------------------------------------------------------

  predicate OpenMeansHeld(l: Ledger) {
    forall c :: c in l.positions ==> (l.positions[c].open <==> l.positions[c].quantity != 0.0)
  }

  lemma OpenStays(l: Ledger, e: LedgerEvent)
    requires OpenMeansHeld(l)
    ensures OpenMeansHeld(Step(l, e))
  {
    forall c | c in Step(l, e).positions
      ensures Step(l, e).positions[c].open <==> Step(l, e).positions[c].quantity != 0.0
    {
      PositionStep(l, e, c);
      assert PositionOf(Step(l, e), c) == Some(Step(l, e).positions[c]);
      if Reaches(l, e, c) {
        OpenAfter(e, Taken(e, OrderOf(l, e.clientOrderId)), PositionOf(l, c));
      } else {
        assert PositionOf(l, c).Some?;
      }
    }
  }

  lemma OpenAfter(e: LedgerEvent, applied: real, p: Option<Position>)
    requires p.Some? ==> (p.value.open <==> p.value.quantity != 0.0)
    ensures var p' := PositionAfter(e, applied, p);
      p'.Some? ==> (p'.value.open <==> p'.value.quantity != 0.0)
  {
  }

  /** For every stream, corrections included: open means held, so freezing changes no position. */
  lemma {:induction false} FreezingChangesNothing(es: seq<LedgerEvent>)
    ensures OpenMeansHeld(Run(EMPTY, es))
    ensures Frozen(Run(EMPTY, es).positions) == Run(EMPTY, es).positions
  {
    if es != [] {
      FreezingChangesNothing(es[..|es| - 1]);
      OpenStays(Run(EMPTY, es[..|es| - 1]), es[|es| - 1]);
    }
  }

  // ---- the average -------------------------------------------------------------------------------------

  function QuantityIn(p: Option<Position>): real {
    if p.Some? then p.value.quantity else 0.0
  }

  /** What a unit of the contract cost; nothing is held at no cost. */
  function AverageIn(p: Option<Position>): real {
    if p.Some? then p.value.avgPrice.GetOr(0.0) else 0.0
  }

  lemma FillAverage(e: LedgerEvent, p: Position, applied: real)
    requires applied > 0.0 && Coherent(p)
    ensures var p' := FilledPosition(e, p, applied);
      && (Abs(p'.quantity) > Abs(p.quantity) ==>
            CostBasis(p') == CostBasis(p) + (p'.quantity - p.quantity) * e.Price())
      && (Abs(p'.quantity) <= Abs(p.quantity) && p'.quantity != 0.0 ==> p'.avgPrice == p.avgPrice)
      && (p'.quantity == 0.0 ==> p'.avgPrice == None)
  {
    var signed := e.Signed(applied);
    if p.quantity != 0.0 && (p.quantity > 0.0) == (signed > 0.0) {
      GrowingCost(p.quantity, p.avgPrice.value, signed, e.Price());
    } else if p.quantity == 0.0 {
      assert CostBasis(p) == 0.0;
    }
  }

  /**
   A fill that adds to a position adds its own cost to the cost held; one that takes away leaves
   the average alone, and taking all away leaves none. So the profit is booked at the old average.
   */
  lemma {:induction false} AverageStep(l: Ledger, e: LedgerEvent, c: string)
    requires FillsPosition(l, e, c)
    requires c in l.positions ==> Coherent(l.positions[c])
    ensures var p, p' := PositionOf(l, c), PositionOf(Step(l, e), c);
      AverageMoves(QuantityIn(p), AverageIn(p), QuantityIn(p'), AverageIn(p'), e.Price())
  {
    PositionStep(l, e, c);
    AverageAfter(e, PositionOf(l, c), Taken(e, OrderOf(l, e.clientOrderId)), PositionOf(Step(l, e), c));
  }

  /** How quantity and average move together under a fill at `price`. */
  predicate AverageMoves(q: real, avg: real, q': real, avg': real, price: real) {
    && (Size(q') > Size(q) ==> q' * avg' == q * avg + (q' - q) * price)
    && (Size(q') <= Size(q) && q' != 0.0 ==> avg' == avg)
    && (q' == 0.0 ==> avg' == 0.0)
  }

  lemma AverageAfter(e: LedgerEvent, p: Option<Position>, applied: real, p': Option<Position>)
    requires e.IsEffectiveFill() && applied > 0.0 && p' == PositionAfter(e, applied, p)
    requires p.Some? ==> Coherent(p.value)
    ensures AverageMoves(QuantityIn(p), AverageIn(p), QuantityIn(p'), AverageIn(p'), e.Price())
  {
    var held := EnsuredPosition(e.contractId, p);
    FillAverage(e, held, applied);
    var filled := FilledPosition(e, held, applied);
    assert p' == Some(filled.(fees := p'.value.fees));
    assert CostBasis(held) == QuantityIn(p) * AverageIn(p);
  }

  // ---- profit, and what moves a position at all ----------------------------------------------------------

  function ProfitIn(p: Option<Position>): real {
    if p.Some? then p.value.realizedPnl else 0.0
  }

  /** What a fill that takes away realises: on what it takes, the price against the average, if that is known. */
  function Realised(q: real, q': real, avg: Option<real>, price: real): real {
    if avg.None? then 0.0 else Gain(q - q', price - avg.value)
  }

  function Gain(taken: real, margin: real): real {
    margin * taken * MULTIPLIER
  }

  lemma FilledProfit(e: LedgerEvent, p: Position, applied: real)
    requires applied > 0.0
    ensures var p' := FilledPosition(e, p, applied);
      p'.realizedPnl == p.realizedPnl
        + if Size(p'.quantity) < Size(p.quantity) then Realised(p.quantity, p'.quantity, p.avgPrice, e.Price()) else 0.0
  {
    var p' := FilledPosition(e, p, applied);
    if Size(p'.quantity) < Size(p.quantity) && p.avgPrice.Some? {
      var closing := Min(Abs(p.quantity), applied);
      GainSigns(e.Price(), p.avgPrice.value, closing);
      assert p.quantity > 0.0 ==> p.quantity - p'.quantity == closing;
      assert p.quantity < 0.0 ==> p.quantity - p'.quantity == -closing;
    }
  }

  lemma GainSigns(price: real, avg: real, closing: real)
    ensures Gain(closing, price - avg) == (price - avg) * closing * MULTIPLIER
    ensures Gain(-closing, price - avg) == (avg - price) * closing * MULTIPLIER
  {
  }

  /**
   Profit moves only when a landing fill takes from the position, long or short, and then by what
   is taken at the price against the average; a position of unknown cost realises nothing.
   */
  lemma {:induction false} ProfitStep(l: Ledger, e: LedgerEvent, c: string)
    ensures var p, p' := PositionOf(l, c), PositionOf(Step(l, e), c);
      ProfitIn(p') == ProfitIn(p)
        + if FillsPosition(l, e, c) && Size(QuantityIn(p')) < Size(QuantityIn(p))
          then Realised(QuantityIn(p), QuantityIn(p'), p.value.avgPrice, e.Price()) else 0.0
  {
    PositionStep(l, e, c);
    if FillsPosition(l, e, c) {
      FilledProfit(e, EnsuredPosition(c, PositionOf(l, c)), Taken(e, OrderOf(l, e.clientOrderId)));
    }
  }

  /** The event restates the position of the contract. */
  predicate Restates(l: Ledger, e: LedgerEvent, c: string) {
    Reaches(l, e, c) && e.IsCorrection() && e.metadata.correctionKind == "position_quantity"
  }

  /**
   A correction of a position, field by field: the absolute quantity if it carries one, else its own,
   counted down for a sell; open when that is not nothing; the price it carries, else the old average,
   and none when nothing is held; profit and label as they were.
   */
  lemma RestatedExactly(l: Ledger, e: LedgerEvent, c: string)
    requires Restates(l, e, c)
    ensures var p, p' := PositionOf(l, c), PositionOf(Step(l, e), c);
      && p'.Some?
      && p'.value.quantity == (match e.metadata.absoluteQuantity
                               case Some(q) => q
                               case None => if e.side == Sell then -e.quantity else e.quantity)
      && (p'.value.open <==> p'.value.quantity != 0.0)
      && (p'.value.quantity == 0.0 ==> p'.value.avgPrice == None)
      && (p'.value.quantity != 0.0 && e.price.Some? ==> p'.value.avgPrice == e.price)
      && (p'.value.quantity != 0.0 && e.price.None? ==>
            p'.value.avgPrice == if p.Some? then p.value.avgPrice else None)
      && p'.value.realizedPnl == ProfitIn(p)
      && p'.value.positionId == if p.Some? then p.value.positionId else None
  {
    PositionStep(l, e, c);
  }

  /** Nothing but landing fills and its own corrections moves a position, fees apart. */
  lemma NothingElseMovesIt(l: Ledger, e: LedgerEvent, c: string)
    requires !FillsPosition(l, e, c) && !Restates(l, e, c)
    ensures match PositionOf(l, c)
      case Some(p) =>
        PositionOf(Step(l, e), c) == Some(p.(fees := PositionFees(Step(l, e), c)))
      case None =>
        PositionOf(Step(l, e), c).Some? ==>
          PositionOf(Step(l, e), c) == Some(Position(c, 0.0, None, 0.0, PositionFees(Step(l, e), c), false, None))
  {
    PositionStep(l, e, c);
  }

  // ---- the label ---------------------------------------------------------------------------------------

  /** A fill that opens the position from nothing and names it. */
  predicate Names(l: Ledger, e: LedgerEvent, c: string) {
    FillsPosition(l, e, c) && Quantity(l, c) == 0.0 && Truthy(e.positionId)
  }

  function LastName(es: seq<LedgerEvent>, c: string): Option<string> {
    if es == [] then None
    else if Names(Run(EMPTY, es[..|es| - 1]), es[|es| - 1], c) then es[|es| - 1].positionId
    else LastName(es[..|es| - 1], c)
  }

  lemma NameStep(l: Ledger, e: LedgerEvent, c: string)
    ensures PositionOf(Step(l, e), c).Some? ==>
      PositionOf(Step(l, e), c).value.positionId
        == if Names(l, e, c) then e.positionId
           else if PositionOf(l, c).Some? then PositionOf(l, c).value.positionId else None
  {
    PositionStep(l, e, c);
  }

  lemma PositionsStay(l: Ledger, e: LedgerEvent, c: string)
    requires PositionOf(l, c).Some?
    ensures PositionOf(Step(l, e), c).Some?
  {
    PositionStep(l, e, c);
  }

  /** A position goes by the id of the last fill that opened it and had one. */
  lemma {:induction false} PositionIdLaw(es: seq<LedgerEvent>, c: string)
    ensures match PositionOf(Run(EMPTY, es), c)
      case Some(p) => p.positionId == LastName(es, c)
      case None => LastName(es, c) == None
  {
    if es != [] {
      var front, e := es[..|es| - 1], es[|es| - 1];
      PositionIdLaw(front, c);
      NameStep(Run(EMPTY, front), e, c);
      NamedExists(Run(EMPTY, front), e, c);
      if PositionOf(Run(EMPTY, front), c).Some? {
        PositionsStay(Run(EMPTY, front), e, c);
      }
    }
  }

  lemma NamedExists(l: Ledger, e: LedgerEvent, c: string)
    ensures Names(l, e, c) ==> PositionOf(Step(l, e), c).Some?
  {
    PositionStep(l, e, c);
  }

  // ---- capital -----------------------------------------------------------------------------------------

  /** The larger of a quantity and its negation: what is held, long or short. */
  function Size(q: real): real {
    if q >= -q then q else -q
  }

  function Premium(q: real, avg: real): real {
    MULTIPLIER * (Size(q) * avg)
  }

  function CapitalHeld(p: Option<Position>): real {
    if p.Some? then CapitalIn(Freeze(p.value)) else 0.0
  }

  /** The capital in a contract is 100 times its size times its average, for longs and shorts alike. */
  lemma {:induction false} CapitalIsPremium(es: seq<LedgerEvent>, c: string)
    ensures var l := Run(EMPTY, es);
      CapitalHeld(PositionOf(l, c)) == Premium(QuantityIn(PositionOf(l, c)), AverageIn(PositionOf(l, c)))
  {
    FreezingChangesNothing(es);
    var l := Run(EMPTY, es);
    CapitalOfOne(PositionOf(l, c), QuantityIn(PositionOf(l, c)), AverageIn(PositionOf(l, c)));
  }

  lemma CapitalOfOne(p: Option<Position>, q: real, avg: real)
    requires p.Some? ==> (p.value.open <==> p.value.quantity != 0.0)
    requires if p.Some? then q == p.value.quantity && avg == p.value.avgPrice.GetOr(0.0) else q == 0.0 == avg
    ensures CapitalHeld(p) == Premium(q, avg)
  {
  }

  /** Without position corrections, profit is cash plus the capital of a long or minus that of a short. */
  lemma {:induction false} ProfitIsCashAndCapital(es: seq<LedgerEvent>, c: string)
    requires Uncorrected(es, c)
    ensures var l := Run(EMPTY, es);
      var capital := CapitalHeld(PositionOf(l, c));
      Realized(l, c) == MULTIPLIER * NetCash(es, c) + if Quantity(l, c) >= 0.0 then capital else -capital
  {
    var l := Run(EMPTY, es);
    AccountingIdentity(es, c);
    ProfitOfOne(PositionOf(l, c), NetCash(es, c));
  }

  lemma ProfitOfOne(p: Option<Position>, cash: real)
    requires if p.Some? then Balanced(p.value, cash) else cash == 0.0
    ensures (if p.Some? then p.value.realizedPnl else 0.0)
      == MULTIPLIER * cash
         + if p.None? || p.value.quantity >= 0.0 then CapitalHeld(p) else -CapitalHeld(p)
  {
    if p.Some? {
      var q, avg := p.value.quantity, p.value.avgPrice.GetOr(0.0);
      CapitalOfOne(p, q, avg);
      SizeCost(q, avg);
    }
  }

  lemma SizeCost(q: real, avg: real)
    ensures Size(q) * avg == if q >= 0.0 then q * avg else -(q * avg)
  {
  }
}
