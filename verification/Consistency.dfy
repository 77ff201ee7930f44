/** When a reconciliation report is consistent: stated without dictionaries or findings. */
module Consistency {
  import opened Options
  import opened Projection
  import opened Reconciliation

  /** The `i`-th broker order is the last one the broker lists for client order `oid`. */
  predicate LastForClient(bos: seq<BrokerOrder>, i: int, oid: string) {
    && 0 <= i < |bos| && oid != "" && bos[i].clientOrderId == Some(oid)
    && forall j :: i < j < |bos| ==> bos[j].clientOrderId != Some(oid)
  }

  predicate LastForBrokerId(bos: seq<BrokerOrder>, i: int, id: string) {
    && 0 <= i < |bos| && bos[i].brokerOrderId == id
    && forall j :: i < j < |bos| ==> bos[j].brokerOrderId != id
  }

  predicate ListsClient(bos: seq<BrokerOrder>, oid: string) {
    oid != "" && exists bo :: bo in bos && bo.clientOrderId == Some(oid)
  }

  /** Broker order `i` answers for projected order `oid`: by client id, else by broker id. */
  predicate Answers(bos: seq<BrokerOrder>, i: int, oid: string, o: Order) {
    if ListsClient(bos, oid) then LastForClient(bos, i, oid)
    else Truthy(o.brokerOrderId) && LastForBrokerId(bos, i, o.brokerOrderId.value)
  }

  /** Some answer to the order agrees with it. */
  ghost predicate AnsweredInKind(bos: seq<BrokerOrder>, oid: string, o: Order) {
    exists i :: Answers(bos, i, oid, o) && bos[i].filledQty == o.filledQty && Compatible(o.status, bos[i].status)
  }

  /** Every working order has an answer with the same fill and a compatible status. */
  ghost predicate OrdersAgree(orders: map<string, Order>, bos: seq<BrokerOrder>) {
    forall oid :: oid in orders && Active(orders[oid]) ==> AnsweredInKind(bos, oid, orders[oid])
  }

  /** Every broker order is known to the ledger or carries the broker id of an answer. */
  ghost predicate NoStrangers(orders: map<string, Order>, bos: seq<BrokerOrder>) {
    forall bo :: bo in bos ==>
      || Known(bo, orders)
      || exists oid, i :: oid in orders && Active(orders[oid]) && Answers(bos, i, oid, orders[oid])
           && bos[i].brokerOrderId == bo.brokerOrderId
  }

  function Held(positions: map<string, Position>, c: string): real {
    if IsOpen(positions, c) then positions[c].quantity else 0.0
  }

  function HeldAtBroker(bps: seq<BrokerPosition>, c: string): real {
    if c in ByContract(bps) then ByContract(bps)[c].quantity else 0.0
  }

  predicate DistinctContracts(bps: seq<BrokerPosition>) {
    forall i, j :: 0 <= i < j < |bps| ==> bps[i].contractId != bps[j].contractId
  }

  /** Both sides hold the same quantity of every contract. */
  ghost predicate HoldingsAgree(positions: map<string, Position>, bps: seq<BrokerPosition>) {
    forall c :: Held(positions, c) == HeldAtBroker(bps, c)
  }

  // ---- dictionaries built in a loop -------------------------------------------------------

  lemma {:induction false} ByClientFindsLast(bos: seq<BrokerOrder>, oid: string)
    ensures oid in ByClient(bos) <==> ListsClient(bos, oid)
    ensures oid in ByClient(bos) ==> exists i :: LastForClient(bos, i, oid) && ByClient(bos)[oid] == bos[i]
  {
    if bos != [] {
      var n := |bos| - 1;
      ByClientFindsLast(bos[..n], oid);
      assert bos == bos[..n] + [bos[n]];
      if Truthy(bos[n].clientOrderId) && bos[n].clientOrderId.value == oid {
        assert LastForClient(bos, n, oid);
      } else if oid in ByClient(bos[..n]) {
        var i :| LastForClient(bos[..n], i, oid) && ByClient(bos[..n])[oid] == bos[..n][i];
        assert LastForClient(bos, i, oid);
      }
    }
  }

  lemma {:induction false} ByBrokerIdFindsLast(bos: seq<BrokerOrder>, id: string)
    ensures id in ByBrokerId(bos) ==> exists i :: LastForBrokerId(bos, i, id) && ByBrokerId(bos)[id] == bos[i]
    ensures (exists bo :: bo in bos && bo.brokerOrderId == id) ==> id in ByBrokerId(bos)
  {
    if bos != [] {
      var n := |bos| - 1;
      ByBrokerIdFindsLast(bos[..n], id);
      assert bos == bos[..n] + [bos[n]];
      if bos[n].brokerOrderId == id {
        assert LastForBrokerId(bos, n, id);
      } else if id in ByBrokerId(bos[..n]) {
        var i :| LastForBrokerId(bos[..n], i, id) && ByBrokerId(bos[..n])[id] == bos[..n][i];
        assert LastForBrokerId(bos, i, id);
      }
    }
  }

  lemma MatchIsTheAnswer(bos: seq<BrokerOrder>, oid: string, o: Order)
    ensures MatchFor(oid, o, bos).Some? ==> exists i :: Answers(bos, i, oid, o) && bos[i] == MatchFor(oid, o, bos).value
    ensures forall i :: Answers(bos, i, oid, o) ==> MatchFor(oid, o, bos) == Some(bos[i])
  {
    ByClientFindsLast(bos, oid);
    if Truthy(o.brokerOrderId) {
      ByBrokerIdFindsLast(bos, o.brokerOrderId.value);
    }
    forall i | Answers(bos, i, oid, o) ensures MatchFor(oid, o, bos) == Some(bos[i]) {
      assert bos[i] in bos;
      if ListsClient(bos, oid) {
        var k :| LastForClient(bos, k, oid) && ByClient(bos)[oid] == bos[k];
        assert k == i;
      } else {
        var k :| LastForBrokerId(bos, k, o.brokerOrderId.value) && ByBrokerId(bos)[o.brokerOrderId.value] == bos[k];
        assert k == i;
      }
    }
  }

  lemma {:induction false} ByContractHolds(bps: seq<BrokerPosition>)
    requires DistinctContracts(bps)
    ensures forall bp :: bp in bps ==> bp.contractId in ByContract(bps) && ByContract(bps)[bp.contractId] == bp
    ensures forall c :: c in ByContract(bps) ==> ByContract(bps)[c] in bps && ByContract(bps)[c].contractId == c
  {
    if bps != [] {
      var front, last := bps[..|bps| - 1], bps[|bps| - 1];
      ByContractHolds(front);
      assert bps == front + [last];
    }
  }

  // ---- what the findings are ---------------------------------------------------------------

  lemma {:induction false} OrderFindingsConsistent(oids: seq<string>, orders: map<string, Order>, bos: seq<BrokerOrder>)
    ensures AllConsistent(OrderFindings(oids, orders, bos)) <==>
      forall oid :: oid in oids && oid in orders && Active(orders[oid]) ==>
        AllConsistent(FindingsForOrder(oid, orders[oid], bos))
  {
    if oids != [] {
      var front, last := oids[..|oids| - 1], oids[|oids| - 1];
      OrderFindingsConsistent(front, orders, bos);
      assert oids == front + [last];
      if last in orders && Active(orders[last]) {
        AllConsistentConcat(OrderFindings(front, orders, bos), FindingsForOrder(last, orders[last], bos));
      }
    }
  }

  lemma AllConsistentConcat(a: seq<Finding>, b: seq<Finding>)
    ensures AllConsistent(a + b) <==> AllConsistent(a) && AllConsistent(b)
  {
    assert forall f :: f in a + b <==> f in a || f in b;
  }

  lemma OneOrderConsistent(oid: string, o: Order, bos: seq<BrokerOrder>)
    ensures AllConsistent(FindingsForOrder(oid, o, bos)) <==>
      MatchFor(oid, o, bos).Some? && MatchFor(oid, o, bos).value.filledQty == o.filledQty
        && Compatible(o.status, MatchFor(oid, o, bos).value.status)
  {
    var fs := FindingsForOrder(oid, o, bos);
    assert fs != [] && (AllConsistent(fs) ==> fs[0].outcome == Consistent);
  }

  lemma {:induction false} UnknownFindingsConsistent(bos: seq<BrokerOrder>, matched: set<string>,
                                                     orders: map<string, Order>)
    ensures AllConsistent(UnknownFindings(bos, matched, orders)) <==>
      forall bo :: bo in bos ==> bo.brokerOrderId in matched || Known(bo, orders)
  {
    if bos != [] {
      var front, last := bos[..|bos| - 1], bos[|bos| - 1];
      UnknownFindingsConsistent(front, matched, orders);
      assert bos == front + [last];
      var fs := UnknownFindings(bos, matched, orders);
      assert fs[..|UnknownFindings(front, matched, orders)|] == UnknownFindings(front, matched, orders);
      if last.brokerOrderId !in matched && !Known(last, orders) {
        assert fs[|fs| - 1] in fs && fs[|fs| - 1].outcome == UnknownBrokerOrder;
      }
    }
  }

  lemma {:induction false} MatchedIdsAre(oids: seq<string>, orders: map<string, Order>, bos: seq<BrokerOrder>)
    ensures forall id :: id in MatchedIds(oids, orders, bos) <==>
      exists oid :: oid in oids && oid in orders && Active(orders[oid])
        && MatchFor(oid, orders[oid], bos).Some? && MatchFor(oid, orders[oid], bos).value.brokerOrderId == id
  {
    if oids != [] {
      var front, last := oids[..|oids| - 1], oids[|oids| - 1];
      MatchedIdsAre(front, orders, bos);
      assert oids == front + [last];
    }
  }

  lemma {:induction false} PositionFindingsConsistent(cids: seq<string>, positions: map<string, Position>,
                                                      bps: seq<BrokerPosition>)
    ensures AllConsistent(PositionFindings(cids, positions, bps)) <==>
      forall c :: c in cids && IsOpen(positions, c) ==> HeldAtBroker(bps, c) == positions[c].quantity
  {
    if cids != [] {
      var front, last := cids[..|cids| - 1], cids[|cids| - 1];
      PositionFindingsConsistent(front, positions, bps);
      assert cids == front + [last];
      if IsOpen(positions, last) {
        var f := FindingForPosition(last, positions[last], bps);
        AllConsistentConcat(PositionFindings(front, positions, bps), [f]);
        assert AllConsistent([f]) <==> f.outcome == Consistent;
      }
    }
  }

  lemma {:induction false} UnexpectedFindingsConsistent(bps: seq<BrokerPosition>, positions: map<string, Position>)
    ensures AllConsistent(UnexpectedFindings(bps, positions)) <==>
      forall bp :: bp in bps && bp.quantity != 0.0 ==> IsOpen(positions, bp.contractId)
  {
    if bps != [] {
      var front, last := bps[..|bps| - 1], bps[|bps| - 1];
      UnexpectedFindingsConsistent(front, positions);
      assert bps == front + [last];
      if last.quantity != 0.0 && !IsOpen(positions, last.contractId) {
        var fs := UnexpectedFindings(bps, positions);
        assert fs[|fs| - 1] in fs && fs[|fs| - 1].outcome == UnexpectedBrokerPosition;
      }
    }
  }

  lemma OneOrderAgrees(oid: string, o: Order, bos: seq<BrokerOrder>)
    ensures AllConsistent(FindingsForOrder(oid, o, bos)) <==> AnsweredInKind(bos, oid, o)
  {
    OneOrderConsistent(oid, o, bos);
    MatchIsTheAnswer(bos, oid, o);
  }

  lemma OrdersAgreeExactly(c: Comparison)
    requires c.Valid()
    ensures AllConsistent(OrderFindings(c.oids, c.orders, c.bos)) <==> OrdersAgree(c.orders, c.bos)
  {
    OrderFindingsConsistent(c.oids, c.orders, c.bos);
    forall oid | oid in c.orders
      ensures AllConsistent(FindingsForOrder(oid, c.orders[oid], c.bos)) <==> AnsweredInKind(c.bos, oid, c.orders[oid])
    {
      OneOrderAgrees(oid, c.orders[oid], c.bos);
    }
  }

  lemma BrokerIdIsMatched(c: Comparison, id: string)
    requires c.Valid()
    ensures id in MatchedIds(c.oids, c.orders, c.bos) <==>
      exists oid, i :: oid in c.orders && Active(c.orders[oid]) && Answers(c.bos, i, oid, c.orders[oid])
        && c.bos[i].brokerOrderId == id
  {
    MatchedIdsAre(c.oids, c.orders, c.bos);
    forall oid | oid in c.orders
      ensures MatchFor(oid, c.orders[oid], c.bos).Some? ==>
        exists i :: Answers(c.bos, i, oid, c.orders[oid]) && c.bos[i] == MatchFor(oid, c.orders[oid], c.bos).value
      ensures forall i :: Answers(c.bos, i, oid, c.orders[oid]) ==>
        MatchFor(oid, c.orders[oid], c.bos) == Some(c.bos[i])
    {
      MatchIsTheAnswer(c.bos, oid, c.orders[oid]);
    }
  }

  lemma NoStrangersExactly(c: Comparison)
    requires c.Valid()
    ensures AllConsistent(UnknownFindings(c.bos, MatchedIds(c.oids, c.orders, c.bos), c.orders))
      <==> NoStrangers(c.orders, c.bos)
  {
    UnknownFindingsConsistent(c.bos, MatchedIds(c.oids, c.orders, c.bos), c.orders);
    forall bo | bo in c.bos
      ensures bo.brokerOrderId in MatchedIds(c.oids, c.orders, c.bos) <==>
        exists oid, i :: oid in c.orders && Active(c.orders[oid]) && Answers(c.bos, i, oid, c.orders[oid])
          && c.bos[i].brokerOrderId == bo.brokerOrderId
    {
      BrokerIdIsMatched(c, bo.brokerOrderId);
    }
  }

  lemma PositionPartConsistent(c: Comparison)
    requires c.Valid() && DistinctContracts(c.bps)
    ensures AllConsistent(c.PositionPart()) <==> HoldingsAgree(c.positions, c.bps)
  {
    AllConsistentConcat(PositionFindings(c.cids, c.positions, c.bps), UnexpectedFindings(c.bps, c.positions));
    PositionFindingsConsistent(c.cids, c.positions, c.bps);
    UnexpectedFindingsConsistent(c.bps, c.positions);
    ByContractHolds(c.bps);
    if AllConsistent(c.PositionPart()) {
      forall k ensures Held(c.positions, k) == HeldAtBroker(c.bps, k) {
        if !IsOpen(c.positions, k) && k in ByContract(c.bps) {
          assert ByContract(c.bps)[k] in c.bps;
        }
      }
    }
    if HoldingsAgree(c.positions, c.bps) {
      assert forall k :: k in c.cids && IsOpen(c.positions, k) ==> Held(c.positions, k) == HeldAtBroker(c.bps, k);
      assert forall bp :: bp in c.bps ==> Held(c.positions, bp.contractId) == HeldAtBroker(c.bps, bp.contractId);
    }
  }

  /**
   Soundness and completeness: a report over distinct broker contracts is consistent exactly
   when the working orders agree, no broker order is a stranger and the holdings agree.
   */
  lemma ConsistentExactlyWhenAgreeing(c: Comparison)
    requires c.Valid() && DistinctContracts(c.bps)
    ensures AllConsistent(c.Findings()) <==>
      OrdersAgree(c.orders, c.bos) && NoStrangers(c.orders, c.bos) && HoldingsAgree(c.positions, c.bps)
  {
    AllConsistentConcat(c.OrderPart(), c.PositionPart());
    AllConsistentConcat(OrderFindings(c.oids, c.orders, c.bos),
                        UnknownFindings(c.bos, MatchedIds(c.oids, c.orders, c.bos), c.orders));
    OrdersAgreeExactly(c);
    NoStrangersExactly(c);
    PositionPartConsistent(c);
  }
}
