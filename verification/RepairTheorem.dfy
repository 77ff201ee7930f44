/** One round of reconciliation, corrections and reconciliation again. */
module RepairTheorem {
  import opened Options
  import opened LedgerEvents
  import opened Projection
  import opened Reconciliation
  import opened Consistency
  import opened Corrections
  import opened Repair
  import Replay

  // ---- one correction event ---------------------------------------------------------------

  predicate TargetsPosition(f: Finding, c: string) {
    f.outcome != Consistent && f.entityType == PositionEntity && f.entityId == c
  }

  predicate TargetsFill(f: Finding, oid: string) {
    f.outcome == QuantityMismatch && f.entityType == OrderEntity && f.entityId == oid
  }

  /** What a finding's correction makes of the position of contract `c`. */
  function PositionRepaired(f: Finding, p: Option<Position>, c: string): Option<Position> {
    if !TargetsPosition(f, c) then p
    else
      var was := EnsuredPosition(c, p);
      var q := if f.brokerQuantity.Some? then f.brokerQuantity.value else f.projectedQuantity.GetOr(0.0);
      Some(was.(quantity := q, open := q != 0.0, avgPrice := if q == 0.0 then None else was.avgPrice))
  }

  lemma CorrectionOnPosition(l: Ledger, f: Finding, ctx: Context, id: nat, c: string)
    requires f.outcome != Consistent && !IsDuplicate(l, CorrectionFor(f, ctx, id))
    ensures PositionOf(Step(l, CorrectionFor(f, ctx, id)), c) == PositionRepaired(f, PositionOf(l, c), c)
  {
  }

  lemma CorrectionOnOrder(l: Ledger, f: Finding, ctx: Context, id: nat, oid: string)
    requires f.outcome != Consistent && oid in l.orders
    ensures var l' := Step(l, CorrectionFor(f, ctx, id));
      && oid in l'.orders
      && l'.orders[oid].(status := l.orders[oid].status, filledQty := l.orders[oid].filledQty) == l.orders[oid]
      && (!TargetsFill(f, oid) ==> l'.orders[oid].filledQty == l.orders[oid].filledQty)
      && (TargetsFill(f, oid) && !IsDuplicate(l, CorrectionFor(f, ctx, id)) ==>
            l'.orders[oid].filledQty == Abs(CorrectionQty(f)))
  {
  }

  // ---- all of them --------------------------------------------------------------------------

  function PositionAfterAll(fs: seq<Finding>, p: Option<Position>, c: string): Option<Position> {
    if fs == [] then p else PositionRepaired(fs[|fs| - 1], PositionAfterAll(fs[..|fs| - 1], p, c), c)
  }

  lemma FrontOfReport(l: Ledger, fs: seq<Finding>, ctx: Context)
    requires fs != [] && FreshContext(l, fs, ctx) && UniqueTargets(fs)
    ensures FreshContext(l, fs[..|fs| - 1], ctx) && UniqueTargets(fs[..|fs| - 1])
  {
  }

  lemma {:induction false} CorrectionsOnPosition(l: Ledger, fs: seq<Finding>, ctx: Context, c: string)
    requires FreshContext(l, fs, ctx) && UniqueTargets(fs)
    ensures PositionOf(Run(l, CorrectionEvents(fs, ctx)), c) == PositionAfterAll(fs, PositionOf(l, c), c)
  {
    if fs != [] {
      var n := |fs| - 1;
      FrontOfReport(l, fs, ctx);
      CorrectionsOnPosition(l, fs[..n], ctx, c);
      CorrectionsStep(l, fs, ctx);
      var before := Run(l, CorrectionEvents(fs[..n], ctx));
      if fs[n].outcome != Consistent {
        var e := CorrectionFor(fs[n], ctx, ctx.ids[n]);
        if !IsDuplicate(before, e) {
          CorrectionOnPosition(before, fs[n], ctx, ctx.ids[n], c);
        } else {
          assert !Repairs(fs[n]) by {
            if Repairs(fs[n]) {
              RepairsAreApplied(l, fs, ctx);
            }
          }
        }
      }
    }
  }

  /** With one finding per contract, a position changes by that finding alone. */
  lemma {:induction false} OnlyItsFindingCounts(fs: seq<Finding>, p: Option<Position>, c: string)
    requires forall i, j :: 0 <= i < j < |fs| && TargetsPosition(fs[i], c) && TargetsPosition(fs[j], c) ==> false
    ensures (forall f :: f in fs ==> !TargetsPosition(f, c)) ==> PositionAfterAll(fs, p, c) == p
    ensures forall f :: f in fs && TargetsPosition(f, c) ==> PositionAfterAll(fs, p, c) == PositionRepaired(f, p, c)
  {
    if fs != [] {
      var front, last := fs[..|fs| - 1], fs[|fs| - 1];
      assert fs == front + [last];
      OnlyItsFindingCounts(front, p, c);
      if TargetsPosition(last, c) {
        forall f | f in front ensures !TargetsPosition(f, c) {
          var i :| 0 <= i < |front| && front[i] == f;
          assert fs[i] == f;
        }
      }
    }
  }

  lemma {:induction false} CorrectionsOnFill(l: Ledger, fs: seq<Finding>, ctx: Context, oid: string)
    requires FreshContext(l, fs, ctx) && UniqueTargets(fs) && oid in l.orders
    requires forall i, j :: 0 <= i < j < |fs| && TargetsFill(fs[i], oid) && TargetsFill(fs[j], oid) ==> false
    ensures var l' := Run(l, CorrectionEvents(fs, ctx));
      && oid in l'.orders
      && l'.orders[oid].(status := l.orders[oid].status, filledQty := l.orders[oid].filledQty) == l.orders[oid]
      && ((forall f :: f in fs ==> !TargetsFill(f, oid)) ==> l'.orders[oid].filledQty == l.orders[oid].filledQty)
      && (forall f :: f in fs && TargetsFill(f, oid) ==> l'.orders[oid].filledQty == Abs(CorrectionQty(f)))
  {
    if fs != [] {
      var n := |fs| - 1;
      var front, last := fs[..n], fs[n];
      assert fs == front + [last];
      FrontOfReport(l, fs, ctx);
      CorrectionsOnFill(l, front, ctx, oid);
      CorrectionsStep(l, fs, ctx);
      if last.outcome != Consistent {
        CorrectionOnOrder(Run(l, CorrectionEvents(front, ctx)), last, ctx, ctx.ids[n], oid);
      }
      if TargetsFill(last, oid) {
        RepairsAreApplied(l, fs, ctx);
        forall f | f in front ensures !TargetsFill(f, oid) {
          var i :| 0 <= i < |front| && front[i] == f;
          assert fs[i] == f;
        }
      }
    }
  }

  // ---- the round ----------------------------------------------------------------------------

  /** A ledger, the comparison made from its projection, and a fresh set of corrections. */
  ghost predicate Round(l: Ledger, c: Comparison, ctx: Context) {
    && c.Valid() && c.orders == l.orders && c.positions == Frozen(l.positions)
    && WellKeyed(l.orders) && DistinctContracts(c.bps) && KeysApart(c)
    && FreshContext(l, c.Findings(), ctx)
  }

  function Corrected(l: Ledger, c: Comparison, ctx: Context): Ledger
    requires |c.Findings()| <= |ctx.ids|
  {
    Run(l, CorrectionEvents(c.Findings(), ctx))
  }

  lemma OnePositionTarget(c: Comparison, k: string)
    requires c.Valid() && DistinctContracts(c.bps) && WellKeyed(c.orders)
    ensures var fs := c.Findings();
      && (forall i, j :: 0 <= i < j < |fs| && TargetsPosition(fs[i], k) && TargetsPosition(fs[j], k) ==> false)
      && (forall f :: f in fs && TargetsPosition(f, k) ==> f in c.PositionPart())
  {
    PositionPartShape(c);
    OrderPartShape(c);
    var a, b, fs := c.OrderPart(), c.PositionPart(), c.Findings();
    forall i | 0 <= i < |a| ensures !TargetsPosition(fs[i], k) {
      assert fs[i] in a;
    }
    forall i, j | 0 <= i < j < |fs| ensures !(TargetsPosition(fs[i], k) && TargetsPosition(fs[j], k)) {
      if |a| <= i {
        assert fs[i] == b[i - |a|] && fs[j] == b[j - |a|];
      }
    }
  }

  /** After one round: what the broker holds, or untouched where the broker is silent. */
  lemma PositionAfterRound(l: Ledger, c: Comparison, ctx: Context, k: string)
    requires Round(l, c, ctx)
    ensures var l' := Corrected(l, c, ctx);
      && (k !in ByContract(c.bps) ==> PositionOf(l', k) == PositionOf(l, k))
      && (k in ByContract(c.bps) ==> Held(Frozen(l'.positions), k) == ByContract(c.bps)[k].quantity)
  {
    ReportTargetsAreUnique(c);
    CorrectionsOnPosition(l, c.Findings(), ctx, k);
    FindingsOnPosition(c, PositionOf(l, k), k);
    ByContractHolds(c.bps);
    assert k in c.positions <==> PositionOf(l, k).Some?;
  }

  /** What the frozen view of a position counts as held. */
  function HeldIn(p: Option<Position>): real {
    if p.Some? && p.value.open then p.value.quantity else 0.0
  }

  /** The position findings of one contract, applied to its position. */
  lemma FindingsOnPosition(c: Comparison, p: Option<Position>, k: string)
    requires c.Valid() && DistinctContracts(c.bps) && WellKeyed(c.orders)
    requires k in c.positions <==> p.Some?
    requires p.Some? ==> c.positions[k] == Freeze(p.value)
    ensures var p' := PositionAfterAll(c.Findings(), p, k);
      && (k !in ByContract(c.bps) ==> p' == p)
      && (k in ByContract(c.bps) ==> HeldIn(p') == ByContract(c.bps)[k].quantity)
  {
    var fs := c.Findings();
    OnePositionTarget(c, k);
    OnlyItsFindingCounts(fs, p, k);
    PositionPartShape(c);
    ByContractHolds(c.bps);
    if IsOpen(c.positions, k) {
      var f := FindingForPosition(k, c.positions[k], c.bps);
      assert f in fs;
      if f.outcome == Consistent {
        NothingToTarget(c, k);
      } else {
        assert TargetsPosition(f, k);
      }
    } else if k in ByContract(c.bps) && ByContract(c.bps)[k].quantity != 0.0 {
      var f := UnexpectedFinding(ByContract(c.bps)[k]);
      assert f in fs && TargetsPosition(f, k);
    } else {
      NothingToTarget(c, k);
    }
  }

  /** Where ledger and broker agree on a contract, no correction targets it. */
  lemma NothingToTarget(c: Comparison, k: string)
    requires c.Valid() && DistinctContracts(c.bps) && WellKeyed(c.orders)
    requires if IsOpen(c.positions, k) then FindingForPosition(k, c.positions[k], c.bps).outcome == Consistent
             else k in ByContract(c.bps) ==> ByContract(c.bps)[k].quantity == 0.0
    ensures forall g :: g in c.Findings() ==> !TargetsPosition(g, k)
  {
    OnePositionTarget(c, k);
    PositionPartShape(c);
    ByContractHolds(c.bps);
    assert forall bp :: bp in c.bps && bp.contractId == k && bp.quantity != 0.0 ==> IsOpen(c.positions, k);
    assert forall g :: IsPositionFinding(g, k, c.positions, c.bps) ==> !TargetsPosition(g, k);
  }

  /**
   Repair in one round: reconciling the corrected ledger against the same broker leaves no
   position finding but those the broker is silent about, and their positions are untouched.
   */
  lemma PositionsRepairedInOneRound(l: Ledger, c: Comparison, ctx: Context, again: Comparison)
    requires Round(l, c, ctx)
    requires again.Valid() && again.positions == Frozen(Corrected(l, c, ctx).positions) && again.bps == c.bps
    ensures forall f :: f in again.PositionPart() && f.outcome != Consistent ==>
      && f.outcome == MissingBrokerPosition
      && f.entityId !in ByContract(c.bps)
      && PositionOf(Corrected(l, c, ctx), f.entityId) == PositionOf(l, f.entityId)
  {
    PositionPartShape(again);
    ByContractHolds(c.bps);
    forall f | f in again.PositionPart() && f.outcome != Consistent
      ensures f.outcome == MissingBrokerPosition && f.entityId !in ByContract(c.bps)
      ensures PositionOf(Corrected(l, c, ctx), f.entityId) == PositionOf(l, f.entityId)
    {
      PositionAfterRound(l, c, ctx, f.entityId);
      assert IsPositionFinding(f, f.entityId, again.positions, again.bps);
    }
  }

  lemma OneFillTarget(c: Comparison, oid: string)
    requires c.Valid() && WellKeyed(c.orders) && DistinctContracts(c.bps)
    ensures var fs := c.Findings();
      && (forall i, j :: 0 <= i < j < |fs| && TargetsFill(fs[i], oid) && TargetsFill(fs[j], oid) ==> false)
      && (forall f :: f in fs && TargetsFill(f, oid) ==> f in c.OrderPart())
  {
    PositionPartShape(c);
    OrderPartShape(c);
    var a, b, fs := c.OrderPart(), c.PositionPart(), c.Findings();
    forall j | |a| <= j < |fs| ensures !TargetsFill(fs[j], oid) {
      assert fs[j] in b;
      assert IsPositionFinding(fs[j], fs[j].entityId, c.positions, c.bps);
    }
    forall i, j | 0 <= i < j < |fs| ensures !(TargetsFill(fs[i], oid) && TargetsFill(fs[j], oid)) {
      if j < |a| {
        assert fs[i] == a[i] && fs[j] == a[j];
      }
    }
  }

  /**
   A working order whose fill differs from the broker's gets exactly the broker's fill when
   that is positive. A broker fill of zero is read as absent, so the projected fill is restated
   and the mismatch stays. Orders whose fill agrees, and all averages and fees, are untouched.
   */
  lemma FillsAfterRound(l: Ledger, c: Comparison, ctx: Context, oid: string)
    requires Round(l, c, ctx) && oid in l.orders
    ensures oid in Corrected(l, c, ctx).orders
    ensures var o, o' := l.orders[oid], Corrected(l, c, ctx).orders[oid];
      && o' == o.(status := o'.status, filledQty := o'.filledQty)
      && (if FillDiffers(oid, l.orders, c.bos) then
            var fill := MatchFor(oid, o, c.bos).value.filledQty;
            && (o'.filledQty == fill <==> fill > 0.0)
            && (fill == 0.0 ==> o'.filledQty == Abs(o.filledQty))
          else o'.filledQty == o.filledQty)
  {
    var fs := c.Findings();
    ReportTargetsAreUnique(c);
    OneFillTarget(c, oid);
    CorrectionsOnFill(l, fs, ctx, oid);
    OrderPartShape(c);
    if FillDiffers(oid, l.orders, c.bos) {
      var f := FillFinding(l.orders[oid], MatchFor(oid, l.orders[oid], c.bos).value);
      assert f in fs && TargetsFill(f, oid);
    } else {
      assert forall f :: f in c.OrderPart() ==> IsOrderFinding(f, c.orders, c.bos);
      assert forall f :: IsOrderFinding(f, c.orders, c.bos) ==> !TargetsFill(f, oid);
    }
  }

  function FeesOf(l: Ledger, k: string): real {
    if k in l.positions then l.positions[k].fees else 0.0
  }

  function MoneyOf(p: Option<Position>): (real, real) {
    if p.Some? then (p.value.realizedPnl, p.value.fees) else (0.0, 0.0)
  }

  lemma {:induction false} RepairsMoveNoMoney(fs: seq<Finding>, p: Option<Position>, c: string)
    ensures MoneyOf(PositionAfterAll(fs, p, c)) == MoneyOf(p)
  {
    if fs != [] {
      RepairsMoveNoMoney(fs[..|fs| - 1], p, c);
    }
  }

  /** Corrections move no realised profit and no fee on any contract. */
  lemma RoundMovesNoMoney(l: Ledger, c: Comparison, ctx: Context, k: string)
    requires Round(l, c, ctx)
    ensures Realized(Corrected(l, c, ctx), k) == Realized(l, k)
    ensures FeesOf(Corrected(l, c, ctx), k) == FeesOf(l, k)
  {
    ReportTargetsAreUnique(c);
    CorrectionsOnPosition(l, c.Findings(), ctx, k);
    RepairsMoveNoMoney(c.Findings(), PositionOf(l, k), k);
    assert MoneyOf(PositionOf(l, k)) == (Realized(l, k), FeesOf(l, k));
    assert MoneyOf(PositionOf(Corrected(l, c, ctx), k))
      == (Realized(Corrected(l, c, ctx), k), FeesOf(Corrected(l, c, ctx), k));
  }

  /** Appending the same corrections twice is appending them once. */
  lemma RoundTwiceIsOnce(l: Ledger, c: Comparison, ctx: Context)
    requires |c.Findings()| <= |ctx.ids|
    ensures var es := CorrectionEvents(c.Findings(), ctx);
      Run(l, es + es) == Corrected(l, c, ctx)
  {
    var es := CorrectionEvents(c.Findings(), ctx);
    Replay.ReplayIsIdempotent(l, es, es);
  }

  /** Every projected ledger keeps its orders under their own ids, as a round requires. */
  lemma {:induction false} ProjectedOrdersAreWellKeyed(es: seq<LedgerEvent>)
    ensures WellKeyed(Run(EMPTY, es).orders)
  {
    if es != [] {
      var front, e := es[..|es| - 1], es[|es| - 1];
      ProjectedOrdersAreWellKeyed(front);
      OrderKeepsItsId(e, OrderOf(Run(EMPTY, front), e.clientOrderId));
    }
  }

  lemma OrderKeepsItsId(e: LedgerEvent, o: Option<Order>)
    requires o.Some? ==> o.value.clientOrderId == e.clientOrderId
    ensures OrderAfter(e, o).Some? ==> OrderAfter(e, o).value.clientOrderId == e.clientOrderId
  {
  }
}
