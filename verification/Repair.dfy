/** Feeding a report's corrections back: one round repairs what the events can carry. */
module Repair {
  import opened Options
  import opened Projection
  import opened Reconciliation
  import opened Consistency
  import opened Corrections

  // ---- the shape of a report --------------------------------------------------------------

  /** No two findings of the list name the same entity. */
  predicate DistinctEntities(fs: seq<Finding>) {
    forall i, j :: 0 <= i < j < |fs| ==> fs[i].entityId != fs[j].entityId
  }

  predicate IsPositionFinding(f: Finding, c: string, positions: map<string, Position>, bps: seq<BrokerPosition>) {
    && f.entityId == c && f.entityType == PositionEntity
    && if IsOpen(positions, c) then f == FindingForPosition(c, positions[c], bps)
       else f.outcome == UnexpectedBrokerPosition && IsReported(f, bps)
  }

  /** The finding carries the non-zero quantity some broker position has for its contract. */
  predicate IsReported(f: Finding, bps: seq<BrokerPosition>) {
    exists bp :: bp in bps && bp.contractId == f.entityId && f.brokerQuantity == Some(bp.quantity) && bp.quantity != 0.0
  }

  lemma {:induction false} PositionFindingsShape(cids: seq<string>, positions: map<string, Position>,
                                                 bps: seq<BrokerPosition>)
    requires forall i, j :: 0 <= i < j < |cids| ==> cids[i] != cids[j]
    ensures var fs := PositionFindings(cids, positions, bps);
      && DistinctEntities(fs)
      && (forall f :: f in fs ==> f.entityId in cids && IsOpen(positions, f.entityId)
                                  && IsPositionFinding(f, f.entityId, positions, bps))
      && (forall c :: c in cids && IsOpen(positions, c) ==> FindingForPosition(c, positions[c], bps) in fs)
  {
    if cids != [] {
      var front, last := cids[..|cids| - 1], cids[|cids| - 1];
      PositionFindingsShape(front, positions, bps);
      assert cids == front + [last];
      assert last !in front;
    }
  }

  function UnexpectedFinding(bp: BrokerPosition): Finding {
    Finding(UnexpectedBrokerPosition, PositionEntity, bp.contractId, None, Some(bp.quantity), None, None)
  }

  lemma {:induction false} UnexpectedAre(bps: seq<BrokerPosition>, positions: map<string, Position>)
    ensures forall f :: f in UnexpectedFindings(bps, positions) <==>
      exists bp :: bp in bps && bp.quantity != 0.0 && !IsOpen(positions, bp.contractId) && f == UnexpectedFinding(bp)
  {
    if bps != [] {
      UnexpectedAre(bps[..|bps| - 1], positions);
      assert bps == bps[..|bps| - 1] + [bps[|bps| - 1]];
    }
  }

  lemma {:induction false} UnexpectedDistinct(bps: seq<BrokerPosition>, positions: map<string, Position>)
    requires DistinctContracts(bps)
    ensures DistinctEntities(UnexpectedFindings(bps, positions))
  {
    if bps != [] {
      var front, last := bps[..|bps| - 1], bps[|bps| - 1];
      UnexpectedDistinct(front, positions);
      UnexpectedAre(front, positions);
      var before := UnexpectedFindings(front, positions);
      forall i | 0 <= i < |before| ensures before[i].entityId != last.contractId {
        assert before[i] in before;
      }
    }
  }

  lemma UnexpectedFindingsShape(bps: seq<BrokerPosition>, positions: map<string, Position>)
    requires DistinctContracts(bps)
    ensures var fs := UnexpectedFindings(bps, positions);
      && DistinctEntities(fs)
      && (forall f :: f in fs ==> !IsOpen(positions, f.entityId) && IsPositionFinding(f, f.entityId, positions, bps))
      && (forall bp :: bp in bps && bp.quantity != 0.0 && !IsOpen(positions, bp.contractId) ==>
            UnexpectedFinding(bp) in fs)
  {
    UnexpectedDistinct(bps, positions);
    UnexpectedAre(bps, positions);
  }

  /** Each contract has at most one position finding, and it says what it should. */
  lemma PositionPartShape(c: Comparison)
    requires c.Valid() && DistinctContracts(c.bps)
    ensures DistinctEntities(c.PositionPart())
    ensures forall f :: f in c.PositionPart() ==> IsPositionFinding(f, f.entityId, c.positions, c.bps)
    ensures forall f :: f in c.PositionPart() && f.outcome == QuantityMismatch ==> f.entityId in c.positions
    ensures forall k :: IsOpen(c.positions, k) ==> FindingForPosition(k, c.positions[k], c.bps) in c.PositionPart()
    ensures forall bp :: bp in c.bps && bp.quantity != 0.0 && !IsOpen(c.positions, bp.contractId) ==>
      UnexpectedFinding(bp) in c.PositionPart()
  {
    PositionFindingsShape(c.cids, c.positions, c.bps);
    UnexpectedFindingsShape(c.bps, c.positions);
    var a, b := PositionFindings(c.cids, c.positions, c.bps), UnexpectedFindings(c.bps, c.positions);
    forall i, j | 0 <= i < |a| && 0 <= j < |b| ensures a[i].entityId != b[j].entityId {
      assert a[i] in a && b[j] in b;
    }
    forall f | f in c.PositionPart() ensures f in a || f in b {
    }
  }

  predicate WellKeyed(orders: map<string, Order>) {
    forall k :: k in orders ==> orders[k].clientOrderId == k
  }

  /** The order is working, has an answer at the broker, and the two fills differ. */
  predicate FillDiffers(oid: string, orders: map<string, Order>, bos: seq<BrokerOrder>) {
    && oid in orders && Active(orders[oid])
    && MatchFor(oid, orders[oid], bos).Some?
    && MatchFor(oid, orders[oid], bos).value.filledQty != orders[oid].filledQty
  }

  function FillFinding(o: Order, bo: BrokerOrder): Finding {
    Finding(QuantityMismatch, OrderEntity, o.clientOrderId, Some(o.filledQty), Some(bo.filledQty),
            Some(o.status), Some(bo.status))
  }

  /** No two fill findings, and no two status findings, name the same order. */
  predicate DistinctFills(fs: seq<Finding>) {
    forall i, j :: 0 <= i < j < |fs|
      && fs[i].outcome == fs[j].outcome && fs[i].outcome in {QuantityMismatch, StatusMismatch}
      ==> fs[i].entityId != fs[j].entityId
  }

  lemma OneOrderShape(oid: string, orders: map<string, Order>, bos: seq<BrokerOrder>)
    requires oid in orders && Active(orders[oid]) && WellKeyed(orders)
    ensures var fs := FindingsForOrder(oid, orders[oid], bos);
      && DistinctFills(fs)
      && (forall f :: f in fs ==> f.entityType == OrderEntity && f.entityId == oid)
      && (forall f :: f in fs && f.outcome == QuantityMismatch ==>
            FillDiffers(oid, orders, bos) && f == FillFinding(orders[oid], MatchFor(oid, orders[oid], bos).value))
      && (FillDiffers(oid, orders, bos) ==> FillFinding(orders[oid], MatchFor(oid, orders[oid], bos).value) in fs)
  {
  }

  predicate IsOrderFinding(f: Finding, orders: map<string, Order>, bos: seq<BrokerOrder>) {
    && f.entityType == OrderEntity
    && (f.outcome == QuantityMismatch ==>
          FillDiffers(f.entityId, orders, bos)
          && f == FillFinding(orders[f.entityId], MatchFor(f.entityId, orders[f.entityId], bos).value))
  }

  lemma {:induction false} OrderFindingsShape(oids: seq<string>, orders: map<string, Order>, bos: seq<BrokerOrder>)
    requires WellKeyed(orders) && forall i, j :: 0 <= i < j < |oids| ==> oids[i] != oids[j]
    ensures var fs := OrderFindings(oids, orders, bos);
      && DistinctFills(fs)
      && (forall f :: f in fs ==> f.entityId in oids && IsOrderFinding(f, orders, bos))
      && (forall oid :: oid in oids && FillDiffers(oid, orders, bos) ==>
            FillFinding(orders[oid], MatchFor(oid, orders[oid], bos).value) in fs)
  {
    if oids != [] {
      var front, last := oids[..|oids| - 1], oids[|oids| - 1];
      OrderFindingsShape(front, orders, bos);
      assert oids == front + [last];
      if last in orders && Active(orders[last]) {
        OneOrderShape(last, orders, bos);
        DistinctFillsConcat(OrderFindings(front, orders, bos), FindingsForOrder(last, orders[last], bos));
      }
    }
  }

  lemma DistinctFillsConcat(a: seq<Finding>, b: seq<Finding>)
    requires DistinctFills(a) && DistinctFills(b)
    requires forall f, g :: f in a && g in b ==> f.entityId != g.entityId
    ensures DistinctFills(a + b)
  {
    forall i, j | 0 <= i < |a| && 0 <= j < |b| ensures a[i].entityId != b[j].entityId {
      assert a[i] in a && b[j] in b;
    }
  }

  lemma {:induction false} UnknownFindingsShape(bos: seq<BrokerOrder>, matched: set<string>, orders: map<string, Order>)
    ensures forall f :: f in UnknownFindings(bos, matched, orders) ==>
      f.entityType == OrderEntity && f.outcome == UnknownBrokerOrder
  {
    if bos != [] {
      UnknownFindingsShape(bos[..|bos| - 1], matched, orders);
    }
  }

  lemma OrderPartShape(c: Comparison)
    requires c.Valid() && WellKeyed(c.orders)
    ensures DistinctFills(c.OrderPart())
    ensures forall f :: f in c.OrderPart() ==> IsOrderFinding(f, c.orders, c.bos)
    ensures forall oid :: FillDiffers(oid, c.orders, c.bos) ==>
      FillFinding(c.orders[oid], MatchFor(oid, c.orders[oid], c.bos).value) in c.OrderPart()
  {
    var a := OrderFindings(c.oids, c.orders, c.bos);
    var b := UnknownFindings(c.bos, MatchedIds(c.oids, c.orders, c.bos), c.orders);
    OrderFindingsShape(c.oids, c.orders, c.bos);
    UnknownFindingsShape(c.bos, MatchedIds(c.oids, c.orders, c.bos), c.orders);
    assert forall i :: 0 <= i < |b| ==> b[i] in b;
    assert forall f :: f in c.OrderPart() <==> f in a || f in b;
  }

  // ---- every repairing correction is applied -----------------------------------------------

  /** Findings whose corrections restate a quantity or a status. */
  predicate Repairs(f: Finding) {
    && f.outcome != Consistent
    && (f.entityType == PositionEntity || f.outcome == QuantityMismatch || f.outcome == StatusMismatch)
  }

  /** No other correction of the report shares a repairing finding's key. */
  predicate UniqueTargets(fs: seq<Finding>) {
    forall i, j :: 0 <= i < j < |fs| && Repairs(fs[j]) && fs[i].outcome == fs[j].outcome ==>
      fs[i].entityId != fs[j].entityId
  }

  predicate KeysApart(c: Comparison) {
    c.orders.Keys !! c.positions.Keys
  }

  lemma ReportTargetsAreUnique(c: Comparison)
    requires c.Valid() && WellKeyed(c.orders) && DistinctContracts(c.bps) && KeysApart(c)
    ensures UniqueTargets(c.Findings())
  {
    OrderPartShape(c);
    PositionPartShape(c);
    var a, b, fs := c.OrderPart(), c.PositionPart(), c.Findings();
    forall i, j | 0 <= i < j < |fs| && Repairs(fs[j]) && fs[i].outcome == fs[j].outcome
      ensures fs[i].entityId != fs[j].entityId
    {
      if j < |a| {
        assert fs[i] == a[i] && fs[j] == a[j] && a[j] in a;
      } else if i < |a| {
        assert fs[i] in a && fs[j] in b;
        assert IsPositionFinding(fs[j], fs[j].entityId, c.positions, c.bps);
        NonOrderOutcomes(c, fs[i]);
      } else {
        assert fs[i] == b[i - |a|] && fs[j] == b[j - |a|];
      }
    }
  }

  lemma {:induction false} OrderOutcomes(oids: seq<string>, orders: map<string, Order>, bos: seq<BrokerOrder>)
    ensures forall f :: f in OrderFindings(oids, orders, bos) ==>
      f.outcome in {Consistent, MissingBrokerOrder, QuantityMismatch, StatusMismatch}
  {
    if oids != [] {
      OrderOutcomes(oids[..|oids| - 1], orders, bos);
    }
  }

  lemma NonOrderOutcomes(c: Comparison, f: Finding)
    requires f in c.OrderPart()
    ensures f.outcome != MissingBrokerPosition && f.outcome != UnexpectedBrokerPosition
  {
    OrderOutcomes(c.oids, c.orders, c.bos);
    UnknownFindingsShape(c.bos, MatchedIds(c.oids, c.orders, c.bos), c.orders);
  }

  /** The report's ids and keys are new to the ledger and the ids differ. */
  ghost predicate FreshContext(l: Ledger, fs: seq<Finding>, ctx: Context) {
    && |fs| <= |ctx.ids|
    && (forall i, j :: 0 <= i < j < |ctx.ids| ==> ctx.ids[i] != ctx.ids[j])
    && (forall i :: 0 <= i < |ctx.ids| ==> ctx.ids[i] !in l.seenIds)
    && (forall f :: f in fs ==> KeyFor(ctx.reportId, f) !in l.seenKeys)
  }

  lemma {:induction false} SeenDuringCorrections(l: Ledger, fs: seq<Finding>, ctx: Context)
    requires |fs| <= |ctx.ids|
    ensures var l' := Run(l, CorrectionEvents(fs, ctx));
      && (forall id :: id in l'.seenIds ==> id in l.seenIds || exists i :: 0 <= i < |fs| && ctx.ids[i] == id)
      && (forall k :: k in l'.seenKeys ==>
            k in l.seenKeys || exists i :: 0 <= i < |fs| && KeyFor(ctx.reportId, fs[i]) == k)
  {
    if fs != [] {
      var n := |fs| - 1;
      SeenDuringCorrections(l, fs[..n], ctx);
      CorrectionsStep(l, fs, ctx);
      assert forall i :: 0 <= i < n ==> fs[..n][i] == fs[i];
      var before, after := Run(l, CorrectionEvents(fs[..n], ctx)), Run(l, CorrectionEvents(fs, ctx));
      forall id | id in after.seenIds ensures id in l.seenIds || exists i :: 0 <= i < |fs| && ctx.ids[i] == id {
        assert id in before.seenIds || id == ctx.ids[n];
      }
      forall k | k in after.seenKeys
        ensures k in l.seenKeys || exists i :: 0 <= i < |fs| && KeyFor(ctx.reportId, fs[i]) == k
      {
        assert k in before.seenKeys || k == KeyFor(ctx.reportId, fs[n]);
      }
    }
  }

  lemma CorrectionsStep(l: Ledger, fs: seq<Finding>, ctx: Context)
    requires 0 < |fs| <= |ctx.ids|
    ensures var n := |fs| - 1;
      var before := Run(l, CorrectionEvents(fs[..n], ctx));
      Run(l, CorrectionEvents(fs, ctx))
        == if fs[n].outcome == Consistent then before else Step(before, CorrectionFor(fs[n], ctx, ctx.ids[n]))
  {
    var n := |fs| - 1;
    var es := CorrectionEvents(fs[..n], ctx);
    if fs[n].outcome != Consistent {
      assert (es + [CorrectionFor(fs[n], ctx, ctx.ids[n])])[..|es|] == es;
    }
  }

  /** A repairing correction is never skipped as a duplicate. */
  lemma RepairsAreApplied(l: Ledger, fs: seq<Finding>, ctx: Context)
    requires fs != [] && FreshContext(l, fs, ctx) && UniqueTargets(fs) && Repairs(fs[|fs| - 1])
    ensures var n := |fs| - 1;
      !IsDuplicate(Run(l, CorrectionEvents(fs[..n], ctx)), CorrectionFor(fs[n], ctx, ctx.ids[n]))
  {
    var n := |fs| - 1;
    var before, e := Run(l, CorrectionEvents(fs[..n], ctx)), CorrectionFor(fs[n], ctx, ctx.ids[n]);
    SeenDuringCorrections(l, fs[..n], ctx);
    assert fs[n] in fs;
    if e.key in before.seenKeys {
      var i :| 0 <= i < n && KeyFor(ctx.reportId, fs[..n][i]) == e.key;
      KeyNamesOutcomeAndEntity(ctx.reportId, fs[i], fs[n]);
      assert false;
    }
  }
}
