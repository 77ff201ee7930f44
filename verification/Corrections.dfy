/** The correction events a report proposes (joker/ledger/reconciliation.py). */
module Corrections {
  import opened Options
  import opened LedgerEvents
  import opened Projection
  import opened Reconciliation
  import opened Text

  /** What surrounds a report's findings; `ids` are the fresh event ids it will use. */
  datatype Context = Context(
    reportId: string,
    brokerAccountId: string,
    sessionId: string,
    sourceEventId: Option<nat>,
    stamp: int,
    createdStamp: int,
    ids: seq<nat>)

  function OutcomeValue(o: Outcome): string {
    match o
    case Consistent => "consistent"
    case MissingBrokerOrder => "missing_broker_order"
    case UnknownBrokerOrder => "unknown_broker_order"
    case QuantityMismatch => "quantity_mismatch"
    case StatusMismatch => "status_mismatch"
    case MissingBrokerPosition => "missing_broker_position"
    case UnexpectedBrokerPosition => "unexpected_broker_position"
  }

  function CorrectionKind(f: Finding): string {
    if f.entityType.PositionEntity? then "position_quantity"
    else if f.outcome == QuantityMismatch then "order_fill_qty"
    else "order_status"
  }

  /** The broker's quantity, or the projected one when the broker's is absent or zero. */
  function CorrectionQty(f: Finding): real {
    if f.brokerQuantity.GetOr(0.0) != 0.0 then f.brokerQuantity.value
    else f.projectedQuantity.GetOr(0.0)
  }

  function KeyFor(reportId: string, f: Finding): string {
    "recon:" + (reportId + (":" + (OutcomeValue(f.outcome) + ":" + f.entityId)))
  }

  function CorrectionFor(f: Finding, ctx: Context, id: nat): LedgerEvent {
    var qty := CorrectionQty(f);
    EventRecord(
      id, ctx.brokerAccountId,
      if f.entityType.OrderEntity? then f.entityId else "recon-" + f.entityId,
      None, f.entityId,
      if qty < 0.0 then Sell else Buy,
      Abs(qty), None, ctx.stamp, ctx.sourceEventId, KeyFor(ctx.reportId, f), ReconciliationCorrection, None,
      Metadata(false, CorrectionKind(f), f.brokerStatus,
               if f.entityType.PositionEntity? then f.brokerQuantity else None,
               map["outcome" := OutcomeValue(f.outcome), "entity_id" := f.entityId]),
      ctx.sessionId, None, ctx.createdStamp)
  }

  function CorrectionEvents(fs: seq<Finding>, ctx: Context): seq<LedgerEvent>
    requires |fs| <= |ctx.ids|
  {
    if fs == [] then []
    else
      var n := |fs| - 1;
      if fs[n].outcome == Consistent then CorrectionEvents(fs[..n], ctx)
      else CorrectionEvents(fs[..n], ctx) + [CorrectionFor(fs[n], ctx, ctx.ids[n])]
  }

  /** `ReconciliationReport.correction_events`. */
  method BuildCorrections(fs: seq<Finding>, ctx: Context) returns (events: seq<LedgerEvent>)
    requires |fs| <= |ctx.ids|
    ensures events == CorrectionEvents(fs, ctx)
  {
    events := [];
    for i := 0 to |fs|
      invariant events == CorrectionEvents(fs[..i], ctx)
    {
      assert fs[..i + 1][..i] == fs[..i];
      if fs[i].outcome == Consistent {
        continue;
      }
      events := events + [CorrectionFor(fs[i], ctx, ctx.ids[i])];
    }
    assert fs[..|fs|] == fs;
  }

  /** The inconsistent findings, in order. */
  function Inconsistent(fs: seq<Finding>): seq<Finding> {
    if fs == [] then []
    else
      var front, last := Inconsistent(fs[..|fs| - 1]), fs[|fs| - 1];
      if last.outcome == Consistent then front else front + [last]
  }

  /**
   The correction restates what the finding says: the broker's quantity, or the projected one where the
   broker's is absent or nought; for a position, the broker's exact quantity; for an order, the broker's word.
   */
  predicate Carries(e: LedgerEvent, f: Finding) {
    && e.contractId == f.entityId && e.brokerOrderId == None && e.positionId == None && !e.metadata.allowOverfill
    && e.metadata.status == f.brokerStatus && (e.side == Sell ==> e.quantity > 0.0)
    && (match f.brokerQuantity
        case Some(q) => if q == 0.0 then Restores(e, f.projectedQuantity) else e.Signed(e.quantity) == q
        case None => Restores(e, f.projectedQuantity))
    && match f.entityType
       case PositionEntity =>
         && e.clientOrderId == "recon-" + f.entityId && e.metadata.correctionKind == "position_quantity"
         && e.metadata.absoluteQuantity == f.brokerQuantity
       case OrderEntity =>
         && e.clientOrderId == f.entityId && e.metadata.absoluteQuantity == None
         && e.metadata.correctionKind == if f.outcome == QuantityMismatch then "order_fill_qty" else "order_status"
  }

  predicate Restores(e: LedgerEvent, projected: Option<real>) {
    e.Signed(e.quantity) == if projected.Some? then projected.value else 0.0
  }

  /**
   The corrections of a report, one for each inconsistent finding in its order: made under the report's
   account, session, source and stamps, never with a price or a fee, and carrying what the finding says.
   */
  lemma {:induction false} CorrectionsExactly(fs: seq<Finding>, ctx: Context)
    requires |fs| <= |ctx.ids|
    ensures var es, bad := CorrectionEvents(fs, ctx), Inconsistent(fs);
      && |es| == |bad|
      && forall i :: 0 <= i < |es| ==>
           && es[i].IsCorrection() && es[i].price.None? && es[i].Fee() == 0.0 && es[i].eventId in ctx.ids
           && es[i].brokerAccountId == ctx.brokerAccountId && es[i].sessionId == ctx.sessionId
           && es[i].sourceEventId == ctx.sourceEventId
           && es[i].exchangeStamp == ctx.stamp && es[i].createdStamp == ctx.createdStamp
           && es[i].key == "recon:" + ctx.reportId + ":" + OutcomeValue(bad[i].outcome) + ":" + bad[i].entityId
           && Carries(es[i], bad[i])
  {
    if fs != [] {
      var n := |fs| - 1;
      CorrectionsExactly(fs[..n], ctx);
      KeyText(ctx.reportId, fs[n]);
      assert ctx.ids[n] in ctx.ids;
    }
  }

  lemma KeyText(reportId: string, f: Finding)
    ensures KeyFor(reportId, f) == "recon:" + reportId + ":" + OutcomeValue(f.outcome) + ":" + f.entityId
  {
    var a, b, c, d := reportId, ":", OutcomeValue(f.outcome), f.entityId;
    assert "recon:" + (a + (b + (c + (b + d)))) == "recon:" + a + b + c + b + d;
  }

  lemma OutcomeValuesDiffer(a: Outcome, b: Outcome)
    requires OutcomeValue(a) == OutcomeValue(b)
    ensures a == b
  {
    assert OutcomeValue(a)[0] == OutcomeValue(b)[0];
  }

  lemma NoColonInOutcome(o: Outcome)
    ensures ':' !in OutcomeValue(o)
  {
  }

  lemma DropPrefix(p: string, a: string, b: string)
    requires p + a == p + b
    ensures a == b
  {
    assert a == (p + a)[|p|..] && b == (p + b)[|p|..];
  }

  /** Within one report a key names one outcome of one entity. */
  lemma KeyNamesOutcomeAndEntity(reportId: string, f: Finding, g: Finding)
    requires KeyFor(reportId, f) == KeyFor(reportId, g)
    ensures f.outcome == g.outcome && f.entityId == g.entityId
  {
    var a, b := OutcomeValue(f.outcome), OutcomeValue(g.outcome);
    DropPrefix("recon:", reportId + (":" + (a + ":" + f.entityId)), reportId + (":" + (b + ":" + g.entityId)));
    DropPrefix(reportId, ":" + (a + ":" + f.entityId), ":" + (b + ":" + g.entityId));
    DropPrefix(":", a + ":" + f.entityId, b + ":" + g.entityId);
    NoColonInOutcome(f.outcome);
    NoColonInOutcome(g.outcome);
    ColonSplitIsUnique(a, f.entityId, b, g.entityId);
    OutcomeValuesDiffer(f.outcome, g.outcome);
  }
}
