/** What each finding of a reconciliation report says, and of what: both ways, field by field. */
module ReportLaws {
  import opened Options
  import opened Projection
  import opened Reconciliation
  import opened Consistency
  import opened StatusWords
  import opened Text

  // ---- orders -------------------------------------------------------------------------------------

  predicate Working(o: Order) {
    o.status in WORKING
  }

  /** Whether the broker order's word stands for the order's status. */
  predicate WordFits(o: Order, bo: BrokerOrder) {
    o.status in StatusesFor(Lower(Strip(bo.status)))
  }

  /** A working order the broker does not answer for is reported with what is still open of it. */
  ghost predicate SaysMissing(f: Finding, oid: string, o: Order, bos: seq<BrokerOrder>) {
    && (forall i :: !Answers(bos, i, oid, o))
    && f.outcome == MissingBrokerOrder && f.entityType == OrderEntity && f.entityId == oid
    && f.projectedQuantity.Some? && f.projectedQuantity.value + o.filledQty == o.submittedQty
    && f.brokerQuantity == None && f.projectedStatus == Some(o.status) && f.brokerStatus == None
  }

  /** An answered order is reported with both fills and both statuses, under what differs. */
  predicate SaysCompared(f: Finding, o: Order, bo: BrokerOrder) {
    && f.entityType == OrderEntity && f.entityId == o.clientOrderId
    && f.projectedQuantity == Some(o.filledQty) && f.brokerQuantity == Some(bo.filledQty)
    && f.projectedStatus == Some(o.status) && f.brokerStatus == Some(bo.status)
    && match f.outcome
       case QuantityMismatch => o.filledQty != bo.filledQty
       case StatusMismatch => !WordFits(o, bo)
       case Consistent => o.filledQty == bo.filledQty && WordFits(o, bo)
       case _ => false
  }

  ghost predicate SaysOfOrder(f: Finding, oid: string, o: Order, bos: seq<BrokerOrder>) {
    || SaysMissing(f, oid, o, bos)
    || exists i :: Answers(bos, i, oid, o) && SaysCompared(f, o, bos[i])
  }

  lemma ComparedExactly(f: Finding, o: Order, bo: BrokerOrder)
    ensures f in CompareOrder(o, bo) <==> SaysCompared(f, o, bo)
  {
    WordFitsExactly(o.status, bo.status);
  }

  lemma OneOrderExactly(f: Finding, oid: string, o: Order, bos: seq<BrokerOrder>)
    ensures f in FindingsForOrder(oid, o, bos) <==> SaysOfOrder(f, oid, o, bos)
  {
    MatchIsTheAnswer(bos, oid, o);
    AnswerIsMatched(bos, oid, o);
    if MatchFor(oid, o, bos).Some? {
      ComparedExactly(f, o, MatchFor(oid, o, bos).value);
    }
  }

  lemma AnswerIsMatched(bos: seq<BrokerOrder>, oid: string, o: Order)
    ensures MatchFor(oid, o, bos).None? ==> forall i :: !Answers(bos, i, oid, o)
  {
    MatchIsTheAnswer(bos, oid, o);
  }

  lemma {:induction false} AmongOrderFindings(f: Finding, oids: seq<string>, orders: map<string, Order>,
                                              bos: seq<BrokerOrder>)
    ensures f in OrderFindings(oids, orders, bos) <==>
      exists oid :: oid in oids && oid in orders && Active(orders[oid]) && f in FindingsForOrder(oid, orders[oid], bos)
  {
    if oids != [] {
      var front, last := oids[..|oids| - 1], oids[|oids| - 1];
      assert oids == front + [last];
      AmongOrderFindings(f, front, orders, bos);
    }
  }

  ghost predicate SaysOfWorking(f: Finding, oid: string, orders: map<string, Order>, bos: seq<BrokerOrder>) {
    oid in orders && Working(orders[oid]) && SaysOfOrder(f, oid, orders[oid], bos)
  }

  /** The order findings are exactly what there is to say of the working orders. */
  lemma OrderFindingsExactly(c: Comparison, f: Finding)
    requires c.Valid()
    ensures f in OrderFindings(c.oids, c.orders, c.bos) <==> exists oid :: SaysOfWorking(f, oid, c.orders, c.bos)
  {
    AmongOrderFindings(f, c.oids, c.orders, c.bos);
    forall oid | oid in c.orders
      ensures SaysOfWorking(f, oid, c.orders, c.bos) <==>
        Active(c.orders[oid]) && f in FindingsForOrder(oid, c.orders[oid], c.bos)
    {
      OneOrderExactly(f, oid, c.orders[oid], c.bos);
    }
  }

  // ---- broker orders nobody knows -------------------------------------------------------------------

  /** The broker order goes by the client id of some order, or by the broker id some order carries. */
  ghost predicate Familiar(bo: BrokerOrder, orders: map<string, Order>) {
    || (exists oid :: oid in orders && oid != "" && bo.clientOrderId == Some(oid))
    || (exists oid :: oid in orders && orders[oid].brokerOrderId == Some(bo.brokerOrderId))
  }

  /** Some working order is answered by a broker order of this id. */
  ghost predicate TakenUp(id: string, orders: map<string, Order>, bos: seq<BrokerOrder>) {
    exists oid, i ::
      oid in orders && Working(orders[oid]) && Answers(bos, i, oid, orders[oid]) && bos[i].brokerOrderId == id
  }

  /** A stranger is reported under its client id, or else its broker id, with what is open of it. */
  predicate SaysUnknown(f: Finding, bo: BrokerOrder) {
    && f.outcome == UnknownBrokerOrder && f.entityType == OrderEntity
    && (if bo.clientOrderId.Some? && |bo.clientOrderId.value| > 0 then bo.clientOrderId == Some(f.entityId)
        else f.entityId == bo.brokerOrderId)
    && f.brokerQuantity.Some? && f.brokerQuantity.value + bo.filledQty == bo.quantity
    && f.projectedQuantity == None && f.projectedStatus == None && f.brokerStatus == Some(bo.status)
  }

  /** The finding the comparison makes of a broker order that is neither matched nor known. */
  predicate MadeOf(f: Finding, bo: BrokerOrder, bos: seq<BrokerOrder>, matched: set<string>,
                   orders: map<string, Order>) {
    bo in bos && bo.brokerOrderId !in matched && !Known(bo, orders) && SaysUnknown(f, bo)
  }

  lemma {:induction false} AmongUnknown(f: Finding, bos: seq<BrokerOrder>, matched: set<string>,
                                        orders: map<string, Order>)
    ensures f in UnknownFindings(bos, matched, orders) <==>
      exists bo :: MadeOf(f, bo, bos, matched, orders)
  {
    if bos != [] {
      var front, last := bos[..|bos| - 1], bos[|bos| - 1];
      assert bos == front + [last];
      AmongUnknown(f, front, matched, orders);
      LastUnknown(f, last, matched, orders, front);
      forall bo ensures MadeOf(f, bo, bos, matched, orders)
        <==> MadeOf(f, bo, front, matched, orders) || (bo == last && MadeOf(f, bo, [last], matched, orders))
      {
      }
    }
  }

  lemma LastUnknown(f: Finding, last: BrokerOrder, matched: set<string>, orders: map<string, Order>,
                    front: seq<BrokerOrder>)
    ensures f in UnknownFindings(front + [last], matched, orders)
      <==> f in UnknownFindings(front, matched, orders) || MadeOf(f, last, [last], matched, orders)
  {
    assert (front + [last])[..|front|] == front;
  }

  lemma KnownIsFamiliar(bo: BrokerOrder, orders: map<string, Order>)
    ensures Known(bo, orders) <==> Familiar(bo, orders)
  {
  }

  ghost predicate SaysOfStranger(f: Finding, bo: BrokerOrder, orders: map<string, Order>, bos: seq<BrokerOrder>) {
    bo in bos && !Familiar(bo, orders) && !TakenUp(bo.brokerOrderId, orders, bos) && SaysUnknown(f, bo)
  }

  lemma MatchedIsTakenUp(c: Comparison, id: string)
    requires c.Valid()
    ensures id in MatchedIds(c.oids, c.orders, c.bos) <==> TakenUp(id, c.orders, c.bos)
  {
    BrokerIdIsMatched(c, id);
  }

  /** The unknown-order findings are exactly what there is to say of the strangers. */
  lemma UnknownFindingsExactly(c: Comparison, f: Finding)
    requires c.Valid()
    ensures f in UnknownFindings(c.bos, MatchedIds(c.oids, c.orders, c.bos), c.orders) <==>
      exists bo :: SaysOfStranger(f, bo, c.orders, c.bos)
  {
    var matched := MatchedIds(c.oids, c.orders, c.bos);
    AmongUnknown(f, c.bos, matched, c.orders);
    forall bo ensures MadeOf(f, bo, c.bos, matched, c.orders) <==> SaysOfStranger(f, bo, c.orders, c.bos) {
      MatchedIsTakenUp(c, bo.brokerOrderId);
      KnownIsFamiliar(bo, c.orders);
    }
  }

  // ---- positions ----------------------------------------------------------------------------------------

  /** A held contract is reported with what both sides hold of it, or as missing where the broker is silent. */
  ghost predicate SaysHeld(f: Finding, k: string, p: Position, bps: seq<BrokerPosition>) {
    && f.entityType == PositionEntity && f.entityId == k && f.projectedQuantity == Some(p.quantity)
    && f.projectedStatus == None && f.brokerStatus == None
    && if (forall bp :: bp in bps ==> bp.contractId != k)
       then f.outcome == MissingBrokerPosition && f.brokerQuantity == None
       else
         exists bp :: bp in bps && bp.contractId == k && f.brokerQuantity == Some(bp.quantity)
           && f.outcome == if bp.quantity == p.quantity then Consistent else QuantityMismatch
  }

  predicate SaysUnexpected(f: Finding, bp: BrokerPosition) {
    && f.outcome == UnexpectedBrokerPosition && f.entityType == PositionEntity && f.entityId == bp.contractId
    && f.brokerQuantity == Some(bp.quantity) && f.projectedQuantity == None
    && f.projectedStatus == None && f.brokerStatus == None
  }

  predicate HeldOpen(positions: map<string, Position>, k: string) {
    k in positions && positions[k].open && positions[k].quantity != 0.0
  }

  ghost predicate SaysOfPosition(f: Finding, k: string, positions: map<string, Position>, bps: seq<BrokerPosition>) {
    if HeldOpen(positions, k) then SaysHeld(f, k, positions[k], bps)
    else exists bp :: bp in bps && bp.contractId == k && bp.quantity != 0.0 && SaysUnexpected(f, bp)
  }

  lemma {:induction false} AmongPositions(f: Finding, cids: seq<string>, positions: map<string, Position>,
                                          bps: seq<BrokerPosition>)
    ensures f in PositionFindings(cids, positions, bps) <==>
      exists k :: k in cids && IsOpen(positions, k) && f == FindingForPosition(k, positions[k], bps)
  {
    if cids != [] {
      var front, last := cids[..|cids| - 1], cids[|cids| - 1];
      assert cids == front + [last];
      AmongPositions(f, front, positions, bps);
    }
  }

  lemma {:induction false} AmongUnexpected(f: Finding, bps: seq<BrokerPosition>, positions: map<string, Position>)
    ensures f in UnexpectedFindings(bps, positions) <==>
      exists bp :: bp in bps && bp.quantity != 0.0 && !IsOpen(positions, bp.contractId) && SaysUnexpected(f, bp)
  {
    if bps != [] {
      var front, last := bps[..|bps| - 1], bps[|bps| - 1];
      assert bps == front + [last];
      AmongUnexpected(f, front, positions);
    }
  }

  lemma HeldExactly(f: Finding, k: string, p: Position, bps: seq<BrokerPosition>)
    requires DistinctContracts(bps)
    ensures f == FindingForPosition(k, p, bps) <==> SaysHeld(f, k, p, bps)
  {
    ByContractHolds(bps);
  }

  /** The position findings are exactly what there is to say of the contracts either side holds. */
  lemma PositionFindingsExactly(c: Comparison, f: Finding)
    requires c.Valid() && DistinctContracts(c.bps)
    ensures f in c.PositionPart() <==> exists k :: SaysOfPosition(f, k, c.positions, c.bps)
  {
    AmongPositions(f, c.cids, c.positions, c.bps);
    AmongUnexpected(f, c.bps, c.positions);
    if k :| k in c.cids && IsOpen(c.positions, k) && f == FindingForPosition(k, c.positions[k], c.bps) {
      HeldExactly(f, k, c.positions[k], c.bps);
      assert SaysOfPosition(f, k, c.positions, c.bps);
    }
    if bp :| bp in c.bps && bp.quantity != 0.0 && !IsOpen(c.positions, bp.contractId) && SaysUnexpected(f, bp) {
      assert SaysOfPosition(f, bp.contractId, c.positions, c.bps);
    }
    if k :| SaysOfPosition(f, k, c.positions, c.bps) {
      if HeldOpen(c.positions, k) {
        HeldExactly(f, k, c.positions[k], c.bps);
        assert k in c.cids;
      }
    }
  }
}
