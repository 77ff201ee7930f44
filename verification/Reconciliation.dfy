/**
 Comparing the projected ledger with the broker's view (joker/ledger/reconciliation.py).
 Dictionary iteration order is a parameter: the theorems hold for every order.
 */
module Reconciliation {
  import opened Options
  import opened LedgerEvents
  import opened Projection
  import opened Text

  datatype Outcome =
    | Consistent
    | MissingBrokerOrder
    | UnknownBrokerOrder
    | QuantityMismatch
    | StatusMismatch
    | MissingBrokerPosition
    | UnexpectedBrokerPosition

  datatype EntityType = OrderEntity | PositionEntity

  datatype BrokerOrder = BrokerOrder(
    brokerOrderId: string,
    clientOrderId: Option<string>,
    contractId: string,
    side: Side,
    quantity: real,
    filledQty: real,
    status: string)

  datatype BrokerPosition = BrokerPosition(contractId: string, quantity: real, avgPrice: Option<real>)

  datatype Finding = Finding(
    outcome: Outcome,
    entityType: EntityType,
    entityId: string,
    projectedQuantity: Option<real>,
    brokerQuantity: Option<real>,
    projectedStatus: Option<OrderStatus>,
    brokerStatus: Option<string>)

  // ---- order findings -----------------------------------------------------------------

  predicate Active(o: Order) {
    o.status in {Submitted, Accepted, PartiallyFilled}
  }

  function Aliases(s: OrderStatus): set<string> {
    match s
    case Submitted => {"submitted", "pending", "new", "open"}
    case Accepted => {"accepted", "working", "open", "new", "partially_filled"}
    case PartiallyFilled => {"partially_filled", "partial", "open", "working"}
    case Filled => {"filled", "complete", "completed"}
    case Cancelled => {"cancelled", "canceled"}
    case Rejected => {"rejected"}
  }

  predicate Compatible(projected: OrderStatus, brokerStatus: string) {
    Lower(Strip(brokerStatus)) in Aliases(projected)
  }

  /** Dictionaries built in a loop: a later entry under the same key wins. */
  function ByClient(bos: seq<BrokerOrder>): map<string, BrokerOrder> {
    if bos == [] then map[]
    else
      var rest, bo := ByClient(bos[..|bos| - 1]), bos[|bos| - 1];
      if Truthy(bo.clientOrderId) then rest[bo.clientOrderId.value := bo] else rest
  }

  function ByBrokerId(bos: seq<BrokerOrder>): map<string, BrokerOrder> {
    if bos == [] then map[]
    else ByBrokerId(bos[..|bos| - 1])[bos[|bos| - 1].brokerOrderId := bos[|bos| - 1]]
  }

  function MatchFor(oid: string, o: Order, bos: seq<BrokerOrder>): Option<BrokerOrder> {
    if oid in ByClient(bos) then Some(ByClient(bos)[oid])
    else if Truthy(o.brokerOrderId) then Get(ByBrokerId(bos), o.brokerOrderId.value)
    else None
  }

  function CompareOrder(o: Order, bo: BrokerOrder): seq<Finding> {
    var quantity := if o.filledQty != bo.filledQty
      then [Finding(QuantityMismatch, OrderEntity, o.clientOrderId, Some(o.filledQty), Some(bo.filledQty),
                    Some(o.status), Some(bo.status))]
      else [];
    var status := if !Compatible(o.status, bo.status)
      then [Finding(StatusMismatch, OrderEntity, o.clientOrderId, Some(o.filledQty), Some(bo.filledQty),
                    Some(o.status), Some(bo.status))]
      else [];
    if quantity + status == []
    then [Finding(Consistent, OrderEntity, o.clientOrderId, Some(o.filledQty), Some(bo.filledQty),
                  Some(o.status), Some(bo.status))]
    else quantity + status
  }

  function FindingsForOrder(oid: string, o: Order, bos: seq<BrokerOrder>): seq<Finding> {
    match MatchFor(oid, o, bos)
    case None => [Finding(MissingBrokerOrder, OrderEntity, oid, Some(o.submittedQty - o.filledQty), None,
                          Some(o.status), None)]
    case Some(bo) => CompareOrder(o, bo)
  }

  function OrderFindings(oids: seq<string>, orders: map<string, Order>, bos: seq<BrokerOrder>): seq<Finding> {
    if oids == [] then []
    else
      var rest, oid := OrderFindings(oids[..|oids| - 1], orders, bos), oids[|oids| - 1];
      if oid in orders && Active(orders[oid]) then rest + FindingsForOrder(oid, orders[oid], bos) else rest
  }

  function MatchedIds(oids: seq<string>, orders: map<string, Order>, bos: seq<BrokerOrder>): set<string> {
    if oids == [] then {}
    else
      var rest, oid := MatchedIds(oids[..|oids| - 1], orders, bos), oids[|oids| - 1];
      if oid in orders && Active(orders[oid]) && MatchFor(oid, orders[oid], bos).Some?
      then rest + {MatchFor(oid, orders[oid], bos).value.brokerOrderId} else rest
  }

  predicate Known(bo: BrokerOrder, orders: map<string, Order>) {
    || (Truthy(bo.clientOrderId) && bo.clientOrderId.value in orders)
    || exists k :: k in orders && orders[k].brokerOrderId == Some(bo.brokerOrderId)
  }

  function UnknownFindings(bos: seq<BrokerOrder>, matched: set<string>, orders: map<string, Order>): seq<Finding> {
    if bos == [] then []
    else
      var rest, bo := UnknownFindings(bos[..|bos| - 1], matched, orders), bos[|bos| - 1];
      if bo.brokerOrderId in matched || Known(bo, orders) then rest
      else rest + [Finding(UnknownBrokerOrder, OrderEntity,
                           if Truthy(bo.clientOrderId) then bo.clientOrderId.value else bo.brokerOrderId,
                           None, Some(bo.quantity - bo.filledQty), None, Some(bo.status))]
  }

  // ---- position findings ----------------------------------------------------------------

  predicate IsOpen(positions: map<string, Position>, c: string) {
    c in positions && positions[c].open && positions[c].quantity != 0.0
  }

  function ByContract(bps: seq<BrokerPosition>): map<string, BrokerPosition> {
    if bps == [] then map[]
    else ByContract(bps[..|bps| - 1])[bps[|bps| - 1].contractId := bps[|bps| - 1]]
  }

  function FindingForPosition(c: string, p: Position, bps: seq<BrokerPosition>): Finding {
    match Get(ByContract(bps), c)
    case None => Finding(MissingBrokerPosition, PositionEntity, c, Some(p.quantity), None, None, None)
    case Some(bp) =>
      Finding(if bp.quantity != p.quantity then QuantityMismatch else Consistent, PositionEntity, c,
              Some(p.quantity), Some(bp.quantity), None, None)
  }

  function PositionFindings(cids: seq<string>, positions: map<string, Position>, bps: seq<BrokerPosition>)
    : seq<Finding>
  {
    if cids == [] then []
    else
      var rest, c := PositionFindings(cids[..|cids| - 1], positions, bps), cids[|cids| - 1];
      if IsOpen(positions, c) then rest + [FindingForPosition(c, positions[c], bps)] else rest
  }

  function UnexpectedFindings(bps: seq<BrokerPosition>, positions: map<string, Position>): seq<Finding> {
    if bps == [] then []
    else
      var rest, bp := UnexpectedFindings(bps[..|bps| - 1], positions), bps[|bps| - 1];
      if bp.quantity == 0.0 || IsOpen(positions, bp.contractId) then rest
      else rest + [Finding(UnexpectedBrokerPosition, PositionEntity, bp.contractId, None,
                           Some(bp.quantity), None, None)]
  }

  // ---- the report -------------------------------------------------------------------------

  /** What is compared, with the iteration orders of the two projected dictionaries. */
  datatype Comparison = Comparison(
    orders: map<string, Order>,
    positions: map<string, Position>,
    oids: seq<string>,
    cids: seq<string>,
    bos: seq<BrokerOrder>,
    bps: seq<BrokerPosition>)
  {
    ghost predicate Valid() {
      Lists(oids, orders.Keys) && Lists(cids, positions.Keys)
    }

    function PositionPart(): seq<Finding> {
      PositionFindings(cids, positions, bps) + UnexpectedFindings(bps, positions)
    }

    function OrderPart(): seq<Finding> {
      OrderFindings(oids, orders, bos) + UnknownFindings(bos, MatchedIds(oids, orders, bos), orders)
    }

    function Findings(): seq<Finding> {
      OrderPart() + PositionPart()
    }
  }

  ghost predicate Lists(s: seq<string>, keys: set<string>) {
    && (forall k :: k in s <==> k in keys)
    && (forall i, j :: 0 <= i < j < |s| ==> s[i] != s[j])
  }

  predicate AllConsistent(fs: seq<Finding>) {
    forall f :: f in fs ==> f.outcome == Consistent
  }

  datatype Report = Report(sessionId: string, stamp: int, findings: seq<Finding>, isConsistent: bool)

  /** `BrokerReconciler.reconcile`; the only error it can raise here is a blank session id. */
  method Reconcile(sessionId: string, stamp: int, c: Comparison) returns (report: Option<Report>)
    requires c.Valid()
    ensures report.None? <==> Strip(sessionId) == ""
    ensures report.Some? ==> report.value == Report(sessionId, stamp, c.Findings(), AllConsistent(c.Findings()))
  {
    if Strip(sessionId) == "" {
      return None;
    }
    var findings, matched := ReportOrders(c);
    findings := ReportUnknown(c, matched, findings);
    findings := ReportPositions(c, findings);
    findings := ReportUnexpected(c, findings);
    assert findings == c.Findings();
    report := Some(Report(sessionId, stamp, findings, forall f | f in findings :: f.outcome == Consistent));
  }

  method ReportOrders(c: Comparison) returns (findings: seq<Finding>, matched: set<string>)
    requires c.Valid()
    ensures findings == OrderFindings(c.oids, c.orders, c.bos)
    ensures matched == MatchedIds(c.oids, c.orders, c.bos)
  {
    var byClient, byBrokerId := IndexBrokerOrders(c.bos);
    findings, matched := [], {};
    for i := 0 to |c.oids|
      invariant findings == OrderFindings(c.oids[..i], c.orders, c.bos)
      invariant matched == MatchedIds(c.oids[..i], c.orders, c.bos)
    {
      var oid := c.oids[i];
      var order := c.orders[oid];
      NextOrder(c, i);
      if order.status in {Submitted, Accepted, PartiallyFilled} {
        var found, compared := CheckOrder(oid, order, c.bos, byClient, byBrokerId);
        findings := findings + compared;
        if found.Some? {
          matched := matched + {found.value.brokerOrderId};
        }
      }
    }
    assert c.oids[..|c.oids|] == c.oids;
  }

  lemma NextOrder(c: Comparison, i: nat)
    requires c.Valid() && i < |c.oids|
    ensures var oid, before, after := c.oids[i], c.oids[..i], c.oids[..i + 1];
      && oid in c.orders
      && OrderFindings(after, c.orders, c.bos) == OrderFindings(before, c.orders, c.bos)
         + (if Active(c.orders[oid]) then FindingsForOrder(oid, c.orders[oid], c.bos) else [])
      && MatchedIds(after, c.orders, c.bos) == MatchedIds(before, c.orders, c.bos)
         + (if Active(c.orders[oid]) && MatchFor(oid, c.orders[oid], c.bos).Some?
            then {MatchFor(oid, c.orders[oid], c.bos).value.brokerOrderId} else {})
  {
    assert c.oids[..i + 1][..i] == c.oids[..i];
  }

  method CheckOrder(oid: string, order: Order, ghost bos: seq<BrokerOrder>,
                    byClient: map<string, BrokerOrder>, byBrokerId: map<string, BrokerOrder>)
    returns (found: Option<BrokerOrder>, findings: seq<Finding>)
    requires byClient == ByClient(bos) && byBrokerId == ByBrokerId(bos)
    ensures found == MatchFor(oid, order, bos)
    ensures findings == FindingsForOrder(oid, order, bos)
  {
    found := Get(byClient, oid);
    if found.None? && Truthy(order.brokerOrderId) {
      found := Get(byBrokerId, order.brokerOrderId.value);
    }
    if found.None? {
      findings := [Finding(MissingBrokerOrder, OrderEntity, oid, Some(order.submittedQty - order.filledQty), None,
                           Some(order.status), None)];
    } else {
      findings := CompareOrder(order, found.value);
    }
  }

  method IndexBrokerOrders(bos: seq<BrokerOrder>)
    returns (byClient: map<string, BrokerOrder>, byBrokerId: map<string, BrokerOrder>)
    ensures byClient == ByClient(bos) && byBrokerId == ByBrokerId(bos)
  {
    byClient, byBrokerId := map[], map[];
    for i := 0 to |bos|
      invariant byClient == ByClient(bos[..i]) && byBrokerId == ByBrokerId(bos[..i])
    {
      assert bos[..i + 1][..i] == bos[..i];
      byBrokerId := byBrokerId[bos[i].brokerOrderId := bos[i]];
      if Truthy(bos[i].clientOrderId) {
        byClient := byClient[bos[i].clientOrderId.value := bos[i]];
      }
    }
    assert bos[..|bos|] == bos;
  }

  method ReportUnknown(c: Comparison, matched: set<string>, before: seq<Finding>) returns (findings: seq<Finding>)
    ensures findings == before + UnknownFindings(c.bos, matched, c.orders)
  {
    findings := before;
    for i := 0 to |c.bos|
      invariant findings == before + UnknownFindings(c.bos[..i], matched, c.orders)
    {
      assert c.bos[..i + 1][..i] == c.bos[..i];
      var bo := c.bos[i];
      if bo.brokerOrderId in matched {
        continue;
      }
      var known := Truthy(bo.clientOrderId) && bo.clientOrderId.value in c.orders;
      if !known && exists k :: k in c.orders && c.orders[k].brokerOrderId == Some(bo.brokerOrderId) {
        known := true;
      }
      if !known {
        var entityId := if Truthy(bo.clientOrderId) then bo.clientOrderId.value else bo.brokerOrderId;
        findings := findings + [Finding(UnknownBrokerOrder, OrderEntity, entityId, None,
                                        Some(bo.quantity - bo.filledQty), None, Some(bo.status))];
      }
    }
    assert c.bos[..|c.bos|] == c.bos;
  }

  method ReportPositions(c: Comparison, before: seq<Finding>) returns (findings: seq<Finding>)
    requires c.Valid()
    ensures findings == before + PositionFindings(c.cids, c.positions, c.bps)
  {
    findings := before;
    var byContract := map[];
    for i := 0 to |c.bps|
      invariant byContract == ByContract(c.bps[..i])
    {
      assert c.bps[..i + 1][..i] == c.bps[..i];
      byContract := byContract[c.bps[i].contractId := c.bps[i]];
    }
    assert c.bps[..|c.bps|] == c.bps;
    for i := 0 to |c.cids|
      invariant findings == before + PositionFindings(c.cids[..i], c.positions, c.bps)
    {
      assert c.cids[..i + 1][..i] == c.cids[..i];
      var cid := c.cids[i];
      var pos := c.positions[cid];
      if !pos.open || pos.quantity == 0.0 {
        continue;
      }
      var bp := Get(byContract, cid);
      var finding :=
        if bp.None? then Finding(MissingBrokerPosition, PositionEntity, cid, Some(pos.quantity), None, None, None)
        else if bp.value.quantity != pos.quantity then
          Finding(QuantityMismatch, PositionEntity, cid, Some(pos.quantity), Some(bp.value.quantity), None, None)
        else Finding(Consistent, PositionEntity, cid, Some(pos.quantity), Some(bp.value.quantity), None, None);
      findings := findings + [finding];
    }
    assert c.cids[..|c.cids|] == c.cids;
  }

  method ReportUnexpected(c: Comparison, before: seq<Finding>) returns (findings: seq<Finding>)
    ensures findings == before + UnexpectedFindings(c.bps, c.positions)
  {
    findings := before;
    for i := 0 to |c.bps|
      invariant findings == before + UnexpectedFindings(c.bps[..i], c.positions)
    {
      assert c.bps[..i + 1][..i] == c.bps[..i];
      var bp := c.bps[i];
      if bp.quantity == 0.0 {
        continue;
      }
      if !IsOpen(c.positions, bp.contractId) {
        findings := findings + [Finding(UnexpectedBrokerPosition, PositionEntity, bp.contractId, None,
                                        Some(bp.quantity), None, None)];
      }
    }
    assert c.bps[..|c.bps|] == c.bps;
  }
}
