/**
 What projecting a ledger stream means (joker/ledger/projector.py), stated one order
 and one position at a time: an event touches at most the order it names and the
 position of the contract it names. `LedgerProjector` in Projector.dfy is the mutable
 form and is proved to compute exactly this.
 */
module Projection {
  import opened Options
  import opened LedgerEvents

  datatype OrderStatus = Submitted | Accepted | PartiallyFilled | Filled | Cancelled | Rejected

  datatype Order = Order(
    clientOrderId: string,
    status: OrderStatus,
    submittedQty: real,
    filledQty: real,
    avgFillPrice: Option<real>,
    fees: real,
    side: Side,
    contractId: string,
    brokerOrderId: Option<string>)

  datatype Position = Position(
    contractId: string,
    quantity: real,
    avgPrice: Option<real>,
    realizedPnl: real,
    fees: real,
    open: bool,
    positionId: Option<string>)

  const MULTIPLIER := 100.0

  function Min(a: real, b: real): real { if a <= b then a else b }
  function Abs(a: real): real { if a < 0.0 then -a else a }

  /** The mean of `a` held `m` times and `b` held `n` times. */
  function WeightedMean(a: real, m: real, b: real, n: real): real
    requires m + n > 0.0
  {
    (a * m + b * n) / (m + n)
  }

  function ParseStatus(s: string): Option<OrderStatus> {
    if s == "submitted" then Some(Submitted)
    else if s == "accepted" then Some(Accepted)
    else if s == "partially_filled" then Some(PartiallyFilled)
    else if s == "filled" then Some(Filled)
    else if s == "cancelled" then Some(Cancelled)
    else if s == "rejected" then Some(Rejected)
    else None
  }

  // ---- orders -----------------------------------------------------------------

  function NewOrder(e: LedgerEvent, submitted: real): Order {
    Order(e.clientOrderId, Submitted, submitted, 0.0, None, 0.0, e.side, e.contractId, e.brokerOrderId)
  }

  /** An order first seen through a fill takes that fill's quantity as submitted. */
  function EnsuredOrder(e: LedgerEvent, o: Option<Order>): Order {
    if o.Some? then o.value else NewOrder(e, if e.IsFill() then e.quantity else 0.0)
  }

  function WithBrokerId(e: LedgerEvent, o: Order): Order {
    if Truthy(e.brokerOrderId) then o.(brokerOrderId := e.brokerOrderId) else o
  }

  /** How much of a fill the order takes. */
  function Applied(o: Order, qty: real, allowOverfill: bool): real {
    if allowOverfill || o.submittedQty <= 0.0 then qty
    else if o.submittedQty <= o.filledQty then 0.0
    else Min(qty, o.submittedQty - o.filledQty)
  }

  /** The quantity event `e` adds to order `o`; zero for everything but a fill. */
  function AppliedQty(e: LedgerEvent, o: Option<Order>): real {
    if e.IsEffectiveFill() then Applied(EnsuredOrder(e, o), e.quantity, e.metadata.allowOverfill) else 0.0
  }

  function FilledOrder(e: LedgerEvent, o: Order, applied: real): Order
    requires applied > 0.0
  {
    var qty := o.filledQty + applied;
    var avg := if o.filledQty <= 0.0 || o.avgFillPrice.None? then e.Price()
               else WeightedMean(o.avgFillPrice.value, o.filledQty, e.Price(), applied);
    o.(avgFillPrice := Some(avg),
       filledQty := qty,
       status := if e.eventType.FinalFill? || (o.submittedQty > 0.0 && qty >= o.submittedQty) then Filled
                 else PartiallyFilled)
  }

  function CorrectedOrder(e: LedgerEvent, o: Order): Order {
    if e.metadata.correctionKind == "order_status" then
      if e.metadata.status.Some? && ParseStatus(e.metadata.status.value).Some?
      then o.(status := ParseStatus(e.metadata.status.value).value)
      else o
    else if e.metadata.correctionKind == "order_fill_qty" then
      o.(filledQty := e.quantity,
         avgFillPrice := if e.price.Some? then e.price else o.avgFillPrice,
         status := if o.submittedQty > 0.0 && e.quantity >= o.submittedQty then Filled
                   else if e.quantity > 0.0 then PartiallyFilled
                   else o.status)
    else o
  }

  function PaidOrder(e: LedgerEvent, o: Order): Order {
    o.(fees := o.fees + e.Fee())
  }

  function ResubmittedOrder(e: LedgerEvent, o: Order): Order {
    var resized := WithBrokerId(e, o.(submittedQty := e.quantity, side := e.side, contractId := e.contractId));
    if o.status in {Filled, Cancelled, Rejected} then resized else resized.(status := Submitted)
  }

  function AcceptedOrder(e: LedgerEvent, o: Order): Order {
    var known := WithBrokerId(e, o);
    var sized := if e.quantity > 0.0 && o.submittedQty == 0.0 then known.(submittedQty := e.quantity) else known;
    if o.status in {Filled, Cancelled, Rejected, PartiallyFilled} then sized else sized.(status := Accepted)
  }

  function CancelledOrder(o: Order): Order {
    if o.status in {Filled, Rejected} then o else o.(status := Cancelled)
  }

  function RejectedOrder(o: Order): Order {
    if o.status in {Filled, Cancelled} then o else o.(status := Rejected)
  }

  function OrderAfter(e: LedgerEvent, o: Option<Order>): Option<Order> {
    match e.eventType
    case OrderSubmissionRequested =>
      Some(PaidOrder(e, if o.None? then NewOrder(e, e.quantity) else ResubmittedOrder(e, o.value)))
    case BrokerOrderAccepted => Some(PaidOrder(e, AcceptedOrder(e, EnsuredOrder(e, o))))
    case PartialFill => OrderAfterFill(e, o)
    case FinalFill => OrderAfterFill(e, o)
    case Cancellation => Some(PaidOrder(e, CancelledOrder(EnsuredOrder(e, o))))
    case Rejection => Some(PaidOrder(e, RejectedOrder(EnsuredOrder(e, o))))
    case FeeRecorded => if o.Some? then Some(PaidOrder(e, o.value)) else None
    case ReconciliationCorrection =>
      if o.Some? then Some(PaidOrder(e, CorrectedOrder(e, o.value))) else None
    case _ => o
  }

  function OrderAfterFill(e: LedgerEvent, o: Option<Order>): Option<Order>
    requires e.IsFill()
  {
    if !e.IsEffectiveFill() then o
    else
      var known := WithBrokerId(e, EnsuredOrder(e, o));
      var applied := AppliedQty(e, o);
      Some(PaidOrder(e, if applied > 0.0 then FilledOrder(e, known, applied) else known))
  }

  // ---- positions --------------------------------------------------------------

  function NewPosition(contractId: string): Position {
    Position(contractId, 0.0, None, 0.0, 0.0, false, None)
  }

  function EnsuredPosition(contractId: string, p: Option<Position>): Position {
    if p.Some? then p.value else NewPosition(contractId)
  }

  /** An opposing fill only closes: it stops at zero. */
  function FilledPosition(e: LedgerEvent, p: Position, applied: real): Position
    requires applied > 0.0
  {
    var signed := e.Signed(applied);
    if p.quantity == 0.0 then
      p.(quantity := signed, avgPrice := Some(e.Price()), open := true,
         positionId := if Truthy(e.positionId) then e.positionId else p.positionId)
    else if (p.quantity > 0.0) == (signed > 0.0) then
      var avg := if p.avgPrice.None? then e.Price()
                 else WeightedMean(p.avgPrice.value, Abs(p.quantity), e.Price(), applied);
      p.(quantity := p.quantity + signed, avgPrice := Some(avg), open := true)
    else
      var closing := Min(Abs(p.quantity), applied);
      var left := if p.quantity > 0.0 then p.quantity - closing else p.quantity + closing;
      var gain := if p.avgPrice.None? then 0.0
                  else if p.quantity > 0.0 then (e.Price() - p.avgPrice.value) * closing * MULTIPLIER
                  else (p.avgPrice.value - e.Price()) * closing * MULTIPLIER;
      p.(quantity := left,
         realizedPnl := p.realizedPnl + gain,
         open := left != 0.0,
         avgPrice := if left == 0.0 then None else p.avgPrice)
  }

  function CorrectedQuantity(e: LedgerEvent): real {
    if e.metadata.absoluteQuantity.Some? then e.metadata.absoluteQuantity.value else e.Signed(e.quantity)
  }

  function CorrectedPosition(e: LedgerEvent, p: Position): Position {
    var q := CorrectedQuantity(e);
    p.(quantity := q, open := q != 0.0,
       avgPrice := if q == 0.0 then None else if e.price.Some? then e.price else p.avgPrice)
  }

  predicate IsPositionCorrection(e: LedgerEvent) {
    e.IsCorrection() && e.metadata.correctionKind == "position_quantity"
  }

  /** Fees alone create a position only on notices and fee records. */
  function PaidPosition(e: LedgerEvent, p: Option<Position>): Option<Position> {
    if e.Fee() == 0.0 then p
    else if p.Some? then Some(p.value.(fees := p.value.fees + e.Fee()))
    else if e.IsPositionNotice() || e.eventType.FeeRecorded? then
      Some(NewPosition(e.contractId).(fees := e.Fee()))
    else None
  }

  function PositionAfter(e: LedgerEvent, applied: real, p: Option<Position>): Option<Position> {
    if e.IsFill() && !e.IsEffectiveFill() then p
    else if e.IsFill() && applied > 0.0 then
      PaidPosition(e, Some(FilledPosition(e, EnsuredPosition(e.contractId, p), applied)))
    else if IsPositionCorrection(e) then
      PaidPosition(e, Some(CorrectedPosition(e, EnsuredPosition(e.contractId, p))))
    else PaidPosition(e, p)
  }

  // ---- the whole ledger ---------------------------------------------------------

  datatype Ledger = Ledger(
    orders: map<string, Order>,
    positions: map<string, Position>,
    seenIds: set<nat>,
    seenKeys: set<string>)

  const EMPTY := Ledger(map[], map[], {}, {})

  function Get<V>(m: map<string, V>, k: string): Option<V> {
    if k in m then Some(m[k]) else None
  }

  function Put<V>(m: map<string, V>, k: string, v: Option<V>): map<string, V> {
    if v.Some? then m[k := v.value] else m
  }

  function Apply(l: Ledger, e: LedgerEvent): Ledger {
    var o := Get(l.orders, e.clientOrderId);
    l.(orders := Put(l.orders, e.clientOrderId, OrderAfter(e, o)),
       positions := Put(l.positions, e.contractId,
                        PositionAfter(e, AppliedQty(e, o), Get(l.positions, e.contractId))))
  }

  predicate IsDuplicate(l: Ledger, e: LedgerEvent) {
    e.eventId in l.seenIds || e.key in l.seenKeys
  }

  function Step(l: Ledger, e: LedgerEvent): Ledger {
    if IsDuplicate(l, e) then l
    else Apply(l, e).(seenIds := l.seenIds + {e.eventId}, seenKeys := l.seenKeys + {e.key})
  }

  function Run(l: Ledger, es: seq<LedgerEvent>): Ledger {
    if es == [] then l else Step(Run(l, es[..|es| - 1]), es[|es| - 1])
  }

  function OrderOf(l: Ledger, oid: string): Option<Order> { Get(l.orders, oid) }
  function PositionOf(l: Ledger, cid: string): Option<Position> { Get(l.positions, cid) }
  function Quantity(l: Ledger, cid: string): real {
    if cid in l.positions then l.positions[cid].quantity else 0.0
  }
  function Realized(l: Ledger, cid: string): real {
    if cid in l.positions then l.positions[cid].realizedPnl else 0.0
  }

  // ---- the frozen view ------------------------------------------------------------

  datatype ProjectionState = ProjectionState(
    orders: map<string, Order>,
    positions: map<string, Position>,
    capitalUsage: real,
    seenIds: set<nat>,
    seenKeys: set<string>)

  function Freeze(p: Position): Position {
    p.(open := p.open && p.quantity != 0.0)
  }

  function Frozen(ps: map<string, Position>): map<string, Position> {
    map c | c in ps :: Freeze(ps[c])
  }

  /** The premium tied up in one frozen position. */
  function CapitalIn(p: Position): real {
    if p.open && p.avgPrice.Some? then Abs(p.quantity) * p.avgPrice.value * MULTIPLIER else 0.0
  }

  ghost function Pick(s: set<string>): string
    requires s != {}
  {
    var c :| c in s;
    c
  }

  /** The sum over all positions; `CapitalSplit` shows the order of summing is irrelevant. */
  ghost function Capital(ps: map<string, Position>): real
    decreases |ps.Keys|
  {
    if ps.Keys == {} then 0.0
    else
      var c := Pick(ps.Keys);
      CapitalIn(ps[c]) + Capital(ps - {c})
  }

  ghost function Project(es: seq<LedgerEvent>): ProjectionState {
    View(Run(EMPTY, es))
  }

  ghost function View(l: Ledger): ProjectionState {
    ProjectionState(l.orders, Frozen(l.positions), Capital(Frozen(l.positions)), l.seenIds, l.seenKeys)
  }

  lemma {:induction false} CapitalSplit(ps: map<string, Position>, c: string)
    requires c in ps
    ensures Capital(ps) == CapitalIn(ps[c]) + Capital(ps - {c})
    decreases |ps.Keys|
  {
    var d := Pick(ps.Keys);
    if d != c {
      var without := ps - {d};
      assert without.Keys == ps.Keys - {d};
      assert (ps - {c}).Keys == ps.Keys - {c};
      CapitalSplit(without, c);
      CapitalSplit(ps - {c}, d);
      assert without - {c} == ps - {c} - {d};
    }
  }

  lemma RemoveFromUnion<V>(ps: map<string, V>, qs: map<string, V>, c: string)
    requires c in ps && ps.Keys !! qs.Keys
    ensures ps + qs - {c} == (ps - {c}) + qs
    ensures (ps - {c}).Keys == ps.Keys - {c}
    ensures (ps + qs)[c] == ps[c]
  {
  }

  lemma {:induction false} CapitalOfUnion(ps: map<string, Position>, qs: map<string, Position>)
    requires ps.Keys !! qs.Keys
    ensures Capital(ps + qs) == Capital(ps) + Capital(qs)
    decreases |ps.Keys|
  {
    if ps.Keys == {} {
      assert ps + qs == qs;
    } else {
      var c := Pick(ps.Keys);
      RemoveFromUnion(ps, qs, c);
      assert Capital(ps + qs) == CapitalIn(ps[c]) + Capital((ps - {c}) + qs) by {
        CapitalSplit(ps + qs, c);
      }
      CapitalOfUnion(ps - {c}, qs);
    }
  }

  // ---- runs -----------------------------------------------------------------------

  lemma {:induction false} RunConcat(l: Ledger, s: seq<LedgerEvent>, t: seq<LedgerEvent>)
    ensures Run(l, s + t) == Run(Run(l, s), t)
    decreases |t|
  {
    if t == [] {
      assert s + t == s;
    } else {
      var n := |t| - 1;
      assert (s + t)[..|s + t| - 1] == s + t[..n];
      RunConcat(l, s, t[..n]);
    }
  }
}
