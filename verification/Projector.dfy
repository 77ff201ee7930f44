/**
 `LedgerProjector` as it runs: dictionaries of order and position objects that are
 updated in place, event by event. Every method is proved against Projection.dfy.
 */
module Projector {
  import opened Options
  import opened LedgerEvents
  import opened Projection

  class MutableOrder {
    var clientOrderId: string
    var status: OrderStatus
    var submittedQty: real
    var filledQty: real
    var avgFillPrice: Option<real>
    var fees: real
    var side: Side
    var contractId: string
    var brokerOrderId: Option<string>

    constructor (clientOrderId: string, status: OrderStatus, submittedQty: real, side: Side,
                 contractId: string, brokerOrderId: Option<string>)
      ensures ToModel() == Order(clientOrderId, status, submittedQty, 0.0, None, 0.0, side, contractId, brokerOrderId)
    {
      this.clientOrderId, this.status, this.submittedQty := clientOrderId, status, submittedQty;
      filledQty, avgFillPrice, fees := 0.0, None, 0.0;
      this.side, this.contractId, this.brokerOrderId := side, contractId, brokerOrderId;
    }

    function ToModel(): Order
      reads this
    {
      Order(clientOrderId, status, submittedQty, filledQty, avgFillPrice, fees, side, contractId, brokerOrderId)
    }

    /** Takes as much of the fill as the order has room for. */
    method AccumulateFill(qty: real, price: real, allowOverfill: bool) returns (applied: real)
      requires qty > 0.0
      modifies this`filledQty, this`avgFillPrice
      ensures applied == Applied(old(ToModel()), qty, allowOverfill) >= 0.0
      ensures applied == 0.0 ==> ToModel() == old(ToModel())
      ensures applied > 0.0 ==> filledQty == old(filledQty) + applied
      ensures applied > 0.0 ==> avgFillPrice == Some(
        if old(filledQty) <= 0.0 || old(avgFillPrice).None? then price
        else WeightedMean(old(avgFillPrice).value, old(filledQty), price, applied))
    {
      var priorQty := filledQty;
      applied := qty;
      if !allowOverfill && submittedQty > 0.0 {
        var remaining := submittedQty - priorQty;
        if remaining <= 0.0 {
          return 0.0;
        }
        applied := Min(qty, remaining);
      }
      if priorQty <= 0.0 || avgFillPrice.None? {
        avgFillPrice := Some(price);
      } else {
        avgFillPrice := Some(WeightedMean(avgFillPrice.value, priorQty, price, applied));
      }
      filledQty := priorQty + applied;
    }

    method NoteBrokerId(e: LedgerEvent)
      modifies this`brokerOrderId
      ensures ToModel() == WithBrokerId(e, old(ToModel()))
    {
      if Truthy(e.brokerOrderId) {
        brokerOrderId := e.brokerOrderId;
      }
    }

    method Resubmit(e: LedgerEvent)
      modifies this
      ensures ToModel() == ResubmittedOrder(e, old(ToModel()))
    {
      submittedQty, side, contractId := e.quantity, e.side, e.contractId;
      NoteBrokerId(e);
      if status !in {Filled, Cancelled, Rejected} {
        status := Submitted;
      }
    }

    method Accept(e: LedgerEvent)
      modifies this
      ensures ToModel() == AcceptedOrder(e, old(ToModel()))
    {
      NoteBrokerId(e);
      if e.quantity > 0.0 && submittedQty == 0.0 {
        submittedQty := e.quantity;
      }
      if status !in {Filled, Cancelled, Rejected, PartiallyFilled} {
        status := Accepted;
      }
    }

    method Cancel()
      modifies this`status
      ensures ToModel() == CancelledOrder(old(ToModel()))
    {
      if status !in {Filled, Rejected} {
        status := Cancelled;
      }
    }

    method Reject()
      modifies this`status
      ensures ToModel() == RejectedOrder(old(ToModel()))
    {
      if status !in {Filled, Cancelled} {
        status := Rejected;
      }
    }

    method Fill(e: LedgerEvent) returns (applied: real)
      requires e.IsEffectiveFill()
      modifies this
      ensures applied == Applied(old(ToModel()), e.quantity, e.metadata.allowOverfill) >= 0.0
      ensures ToModel() == (if applied > 0.0 then FilledOrder(e, WithBrokerId(e, old(ToModel())), applied)
                            else WithBrokerId(e, old(ToModel())))
    {
      NoteBrokerId(e);
      applied := AccumulateFill(e.quantity, e.Price(), e.metadata.allowOverfill);
      if applied > 0.0 {
        if e.eventType.FinalFill? || (submittedQty > 0.0 && filledQty >= submittedQty) {
          status := Filled;
        } else {
          status := PartiallyFilled;
        }
      }
    }

    method Correct(e: LedgerEvent)
      modifies this
      ensures ToModel() == CorrectedOrder(e, old(ToModel()))
    {
      var kind := e.metadata.correctionKind;
      if kind == "order_status" && e.metadata.status.Some? {
        var parsed := ParseStatus(e.metadata.status.value);
        if parsed.Some? {
          status := parsed.value;
        }
      }
      if kind == "order_fill_qty" {
        filledQty := e.quantity;
        if e.price.Some? {
          avgFillPrice := e.price;
        }
        if submittedQty > 0.0 && filledQty >= submittedQty {
          status := Filled;
        } else if filledQty > 0.0 {
          status := PartiallyFilled;
        }
      }
    }
  }

  class MutablePosition {
    var contractId: string
    var quantity: real
    var avgPrice: Option<real>
    var realizedPnl: real
    var fees: real
    var open: bool
    var positionId: Option<string>

    constructor (contractId: string)
      ensures Raw() == NewPosition(contractId)
    {
      this.contractId := contractId;
      quantity, avgPrice, realizedPnl, fees, open, positionId := 0.0, None, 0.0, 0.0, false, None;
    }

    function Raw(): Position
      reads this
    {
      Position(contractId, quantity, avgPrice, realizedPnl, fees, open, positionId)
    }

    method Realize(closeQty: real, exitPrice: real)
      modifies this`realizedPnl
      ensures avgPrice.None? || closeQty <= 0.0 ==> realizedPnl == old(realizedPnl)
      ensures avgPrice.Some? && closeQty > 0.0 ==>
        realizedPnl - old(realizedPnl) ==
          if quantity > 0.0 then (exitPrice - avgPrice.value) * closeQty * MULTIPLIER
          else (avgPrice.value - exitPrice) * closeQty * MULTIPLIER
    {
      if avgPrice.None? || closeQty <= 0.0 {
        return;
      }
      var pnl := if quantity > 0.0 then (exitPrice - avgPrice.value) * closeQty * MULTIPLIER
                 else (avgPrice.value - exitPrice) * closeQty * MULTIPLIER;
      realizedPnl := realizedPnl + pnl;
    }

    /** Moves the quantity; what is then held costs the weighted mean, and nothing held costs nothing. */
    method Resize(deltaQty: real, price: real)
      modifies this`quantity, this`avgPrice, this`open
      ensures quantity == old(quantity) + deltaQty && (open <==> quantity != 0.0)
      ensures quantity == 0.0 ==> avgPrice == None
      ensures quantity != 0.0 ==> avgPrice == Some(
        if old(quantity) == 0.0 || old(avgPrice).None? then price
        else WeightedMean(old(avgPrice).value, Abs(old(quantity)), price, Abs(deltaQty)))
    {
      var newQty := quantity + deltaQty;
      if quantity == 0.0 || avgPrice.None? {
        quantity, avgPrice, open := newQty, if newQty != 0.0 then Some(price) else None, newQty != 0.0;
        return;
      }
      avgPrice := Some(WeightedMean(avgPrice.value, Abs(quantity), price, Abs(deltaQty)));
      quantity, open := newQty, newQty != 0.0;
      if newQty == 0.0 {
        avgPrice := None;
      }
    }

    method ApplyFill(e: LedgerEvent, applied: real)
      requires applied > 0.0
      modifies this
      ensures Raw() == FilledPosition(e, old(Raw()), applied)
    {
      var signed := e.Signed(applied);
      if quantity == 0.0 {
        quantity, avgPrice, open := signed, Some(e.Price()), true;
        if Truthy(e.positionId) {
          positionId := e.positionId;
        }
      } else if (quantity > 0.0) == (signed > 0.0) {
        assert quantity + signed != 0.0;
        Resize(signed, e.Price());
      } else {
        var closeQty := Min(Abs(quantity), Abs(signed));
        Realize(closeQty, e.Price());
        quantity := if quantity > 0.0 then quantity - closeQty else quantity + closeQty;
        if quantity == 0.0 {
          open, avgPrice := false, None;
        } else {
          open := true;
        }
      }
    }

    method Correct(e: LedgerEvent)
      modifies this`quantity, this`avgPrice, this`open
      ensures Raw() == CorrectedPosition(e, old(Raw()))
    {
      quantity := if e.metadata.absoluteQuantity.Some? then e.metadata.absoluteQuantity.value
                  else if e.side.Buy? then e.quantity else -e.quantity;
      if e.price.Some? {
        avgPrice := e.price;
      }
      open := quantity != 0.0;
      if quantity == 0.0 {
        avgPrice := None;
      }
    }
  }

  // ---- the two dictionaries -----------------------------------------------------------

  type Orders = map<string, MutableOrder>
  type Positions = map<string, MutablePosition>

  /** Different keys hold different objects, so updating one entry leaves the others alone. */
  ghost predicate Separate<T>(m: map<string, T>) {
    forall a, b :: a in m && b in m && a != b ==> m[a] != m[b]
  }

  function OrderModels(orders: Orders): map<string, Order>
    reads orders.Values
  {
    map k | k in orders :: orders[k].ToModel()
  }

  function PositionModels(positions: Positions): map<string, Position>
    reads positions.Values
  {
    map k | k in positions :: positions[k].Raw()
  }

  method EnsureOrder(e: LedgerEvent, orders: Orders) returns (orders': Orders, order: MutableOrder)
    requires Separate(orders)
    ensures Separate(orders') && orders' == orders[e.clientOrderId := order]
    ensures e.clientOrderId in orders ==> order == orders[e.clientOrderId]
    ensures e.clientOrderId !in orders ==> fresh(order)
    ensures order.ToModel() == EnsuredOrder(e, Get(OrderModels(orders), e.clientOrderId))
  {
    if e.clientOrderId in orders {
      order := orders[e.clientOrderId];
    } else {
      var submitted := if e.IsFill() then e.quantity else 0.0;
      order := new MutableOrder(e.clientOrderId, Submitted, submitted, e.side, e.contractId, e.brokerOrderId);
    }
    orders' := orders[e.clientOrderId := order];
  }

  method EnsurePosition(contractId: string, positions: Positions)
    returns (positions': Positions, pos: MutablePosition)
    requires Separate(positions)
    ensures Separate(positions') && positions' == positions[contractId := pos]
    ensures contractId in positions ==> pos == positions[contractId]
    ensures contractId !in positions ==> fresh(pos)
    ensures pos.Raw() == EnsuredPosition(contractId, Get(PositionModels(positions), contractId))
  {
    if contractId in positions {
      pos := positions[contractId];
    } else {
      pos := new MutablePosition(contractId);
    }
    positions' := positions[contractId := pos];
  }

  /** The position half of the fee rule; `positions` are the dictionary's models before it. */
  method AddPositionFees(e: LedgerEvent, positions: Positions) returns (positions': Positions)
    requires Separate(positions) && e.Fee() != 0.0
    modifies positions.Values
    ensures Separate(positions') && fresh(positions'.Values - positions.Values)
    ensures PositionModels(positions') == Put(old(PositionModels(positions)), e.contractId,
              PaidPosition(e, Get(old(PositionModels(positions)), e.contractId)))
  {
    ghost var before := PositionModels(positions);
    positions' := positions;
    if e.contractId in positions {
      var pos := positions[e.contractId];
      pos.fees := pos.fees + e.Fee();
      assert pos.Raw() == before[e.contractId].(fees := before[e.contractId].fees + e.Fee());
    } else if e.IsPositionNotice() || e.eventType.FeeRecorded? {
      var pos := new MutablePosition(e.contractId);
      pos.fees := pos.fees + e.Fee();
      positions' := positions[e.contractId := pos];
      assert pos.Raw() == NewPosition(e.contractId).(fees := e.Fee());
    }
  }

  method AddFees(order: MutableOrder?, e: LedgerEvent, positions: Positions) returns (positions': Positions)
    requires Separate(positions)
    modifies (if order == null then {} else {order}), positions.Values
    ensures Separate(positions') && fresh(positions'.Values - positions.Values)
    ensures order != null ==> order.ToModel() == PaidOrder(e, old(order.ToModel()))
    ensures PositionModels(positions') == Put(old(PositionModels(positions)), e.contractId,
              PaidPosition(e, Get(old(PositionModels(positions)), e.contractId)))
  {
    if e.fees.None? || e.fees.value == 0.0 {
      positions' := positions;
      return;
    }
    if order != null {
      order.fees := order.fees + e.fees.value;
    }
    assert PositionModels(positions) == old(PositionModels(positions));
    positions' := AddPositionFees(e, positions);
  }

  // ---- one event ------------------------------------------------------------------------

  /** The dictionary holds what `e` makes of `os`, except that the fee is still to be added. */
  ghost predicate Touched(e: LedgerEvent, os: map<string, Order>, orders: Orders, order: MutableOrder)
    reads orders.Values, order
  {
    && Separate(orders)
    && orders.Keys == os.Keys + {e.clientOrderId}
    && orders[e.clientOrderId] == order
    && OrderAfter(e, Get(os, e.clientOrderId)) == Some(PaidOrder(e, order.ToModel()))
    && (forall k :: k in os && k != e.clientOrderId ==> orders[k].ToModel() == os[k])
  }

  /** The event leaves every order as it was. */
  ghost predicate Untouched(e: LedgerEvent, os: map<string, Order>, orders: Orders)
    reads orders.Values
  {
    OrderModels(orders) == os && OrderAfter(e, Get(os, e.clientOrderId)) == Get(os, e.clientOrderId)
  }

  lemma PaidModels(e: LedgerEvent, os: map<string, Order>, orders: Orders)
    requires orders.Keys == os.Keys + {e.clientOrderId}
    requires OrderAfter(e, Get(os, e.clientOrderId)) == Some(orders[e.clientOrderId].ToModel())
    requires forall k :: k in os && k != e.clientOrderId ==> orders[k].ToModel() == os[k]
    ensures OrderModels(orders) == Put(os, e.clientOrderId, OrderAfter(e, Get(os, e.clientOrderId)))
  {
  }

  /** Events that create their order when it is missing. */
  method TouchEnsured(e: LedgerEvent, orders: Orders)
    returns (orders': Orders, order: MutableOrder, applied: real)
    requires Separate(orders)
    requires || e.eventType.BrokerOrderAccepted? || e.eventType.Cancellation? || e.eventType.Rejection?
             || e.IsEffectiveFill()
    modifies orders.Values
    ensures fresh(orders'.Values - orders.Values) && order in orders'.Values
    ensures Touched(e, old(OrderModels(orders)), orders', order)
    ensures applied == AppliedQty(e, Get(old(OrderModels(orders)), e.clientOrderId)) >= 0.0
  {
    orders', order := EnsureOrder(e, orders);
    applied := 0.0;
    if e.IsFill() {
      applied := order.Fill(e);
    } else if e.eventType.BrokerOrderAccepted? {
      order.Accept(e);
    } else if e.eventType.Cancellation? {
      order.Cancel();
    } else {
      order.Reject();
    }
    assert orders'[e.clientOrderId] in orders'.Values;
  }

  method TouchSubmitted(e: LedgerEvent, orders: Orders) returns (orders': Orders, order: MutableOrder)
    requires Separate(orders) && e.eventType.OrderSubmissionRequested?
    modifies orders.Values
    ensures fresh(orders'.Values - orders.Values) && order in orders'.Values
    ensures Touched(e, old(OrderModels(orders)), orders', order)
  {
    if e.clientOrderId in orders {
      order := orders[e.clientOrderId];
      order.Resubmit(e);
      orders' := orders;
    } else {
      order := new MutableOrder(e.clientOrderId, Submitted, e.quantity, e.side, e.contractId, e.brokerOrderId);
      orders' := orders[e.clientOrderId := order];
    }
    assert orders'[e.clientOrderId] in orders'.Values;
  }

  /** Events that leave a missing order missing. */
  method TouchExisting(e: LedgerEvent, orders: Orders) returns (order: MutableOrder?)
    requires Separate(orders) && (e.eventType.FeeRecorded? || e.IsCorrection())
    modifies orders.Values
    ensures order == null <==> e.clientOrderId !in orders
    ensures order == null ==> OrderModels(orders) == old(OrderModels(orders))
    ensures order != null ==> order in orders.Values && Touched(e, old(OrderModels(orders)), orders, order)
  {
    order := null;
    if e.clientOrderId in orders {
      order := orders[e.clientOrderId];
      if e.IsCorrection() {
        order.Correct(e);
      }
    }
  }

  method TouchOrder(e: LedgerEvent, orders: Orders)
    returns (orders': Orders, order: MutableOrder?, applied: real)
    requires Separate(orders) && (e.IsFill() ==> e.IsEffectiveFill())
    modifies orders.Values
    ensures Separate(orders') && fresh(orders'.Values - orders.Values)
    ensures applied == AppliedQty(e, Get(old(OrderModels(orders)), e.clientOrderId)) >= 0.0
    ensures order != null ==> order in orders'.Values && Touched(e, old(OrderModels(orders)), orders', order)
    ensures order == null ==> Untouched(e, old(OrderModels(orders)), orders')
  {
    orders', order, applied := orders, null, 0.0;
    match e.eventType {
      case OrderSubmissionRequested => orders', order := TouchSubmitted(e, orders);
      case BrokerOrderAccepted => orders', order, applied := TouchEnsured(e, orders);
      case PartialFill => orders', order, applied := TouchEnsured(e, orders);
      case FinalFill => orders', order, applied := TouchEnsured(e, orders);
      case Cancellation => orders', order, applied := TouchEnsured(e, orders);
      case Rejection => orders', order, applied := TouchEnsured(e, orders);
      case FeeRecorded => order := TouchExisting(e, orders);
      case ReconciliationCorrection => order := TouchExisting(e, orders);
      case _ =>
    }
  }

  /** What the fill or correction alone makes of a position. */
  ghost function Moved(e: LedgerEvent, applied: real, was: Option<Position>): Option<Position> {
    if applied > 0.0 then Some(FilledPosition(e, EnsuredPosition(e.contractId, was), applied))
    else if IsPositionCorrection(e) then Some(CorrectedPosition(e, EnsuredPosition(e.contractId, was)))
    else was
  }

  lemma MovedThenPaid(e: LedgerEvent, applied: real, ps: map<string, Position>)
    requires (e.IsFill() ==> e.IsEffectiveFill()) && (applied > 0.0 ==> e.IsFill())
    ensures var c := e.contractId;
      var moved := Put(ps, c, Moved(e, applied, Get(ps, c)));
      Put(moved, c, PaidPosition(e, Get(moved, c))) == Put(ps, c, PositionAfter(e, applied, Get(ps, c)))
  {
    var c := e.contractId;
    var moved := Put(ps, c, Moved(e, applied, Get(ps, c)));
    assert Get(moved, c) == Moved(e, applied, Get(ps, c));
    assert PositionAfter(e, applied, Get(ps, c)) == PaidPosition(e, Moved(e, applied, Get(ps, c)));
  }

  method FillPosition(e: LedgerEvent, positions: Positions, applied: real) returns (positions': Positions)
    requires Separate(positions) && e.IsEffectiveFill() && applied > 0.0
    modifies positions.Values
    ensures Separate(positions') && fresh(positions'.Values - positions.Values)
    ensures PositionModels(positions') == Put(old(PositionModels(positions)), e.contractId,
              Moved(e, applied, Get(old(PositionModels(positions)), e.contractId)))
  {
    var pos;
    positions', pos := EnsurePosition(e.contractId, positions);
    pos.ApplyFill(e, applied);
  }

  method CorrectPosition(e: LedgerEvent, positions: Positions) returns (positions': Positions)
    requires Separate(positions) && IsPositionCorrection(e)
    modifies positions.Values
    ensures Separate(positions') && fresh(positions'.Values - positions.Values)
    ensures PositionModels(positions') == Put(old(PositionModels(positions)), e.contractId,
              Moved(e, 0.0, Get(old(PositionModels(positions)), e.contractId)))
  {
    var pos;
    positions', pos := EnsurePosition(e.contractId, positions);
    pos.Correct(e);
  }

  /** Fills are the sole source of quantity and profit; corrections restate the quantity. */
  method MovePosition(e: LedgerEvent, positions: Positions, applied: real) returns (positions': Positions)
    requires Separate(positions) && (e.IsFill() ==> e.IsEffectiveFill()) && (applied > 0.0 ==> e.IsFill())
    modifies positions.Values
    ensures Separate(positions') && fresh(positions'.Values - positions.Values)
    ensures PositionModels(positions') == Put(old(PositionModels(positions)), e.contractId,
              Moved(e, applied, Get(old(PositionModels(positions)), e.contractId)))
  {
    positions' := positions;
    if applied > 0.0 {
      positions' := FillPosition(e, positions, applied);
    } else if IsPositionCorrection(e) {
      positions' := CorrectPosition(e, positions);
    }
  }

  /** The fee tail every branch ends with. */
  method Settle(e: LedgerEvent, ghost os: map<string, Order>, orders: Orders, order: MutableOrder?,
                positions: Positions)
    returns (positions': Positions)
    requires Separate(orders) && Separate(positions)
    requires order == null ==> Untouched(e, os, orders)
    requires order != null ==> order in orders.Values && Touched(e, os, orders, order)
    modifies orders.Values, positions.Values
    ensures Separate(positions') && fresh(positions'.Values - positions.Values)
    ensures OrderModels(orders) == Put(os, e.clientOrderId, OrderAfter(e, Get(os, e.clientOrderId)))
    ensures PositionModels(positions') == Put(old(PositionModels(positions)), e.contractId,
              PaidPosition(e, Get(old(PositionModels(positions)), e.contractId)))
  {
    positions' := AddFees(order, e, positions);
    if order != null {
      PaidModels(e, os, orders);
    }
  }

  method MoveAndSettle(e: LedgerEvent, ghost os: map<string, Order>, ghost ps: map<string, Position>,
                       orders: Orders, order: MutableOrder?, applied: real, positions: Positions)
    returns (positions': Positions)
    requires Separate(orders) && Separate(positions)
    requires (e.IsFill() ==> e.IsEffectiveFill()) && (applied > 0.0 ==> e.IsFill())
    requires order == null ==> Untouched(e, os, orders)
    requires order != null ==> order in orders.Values && Touched(e, os, orders, order)
    requires ps == PositionModels(positions)
    modifies orders.Values, positions.Values
    ensures Separate(positions') && fresh(positions'.Values - positions.Values)
    ensures OrderModels(orders) == Put(os, e.clientOrderId, OrderAfter(e, Get(os, e.clientOrderId)))
    ensures PositionModels(positions') == Put(ps, e.contractId, PositionAfter(e, applied, Get(ps, e.contractId)))
  {
    positions' := MovePosition(e, positions, applied);
    positions' := Settle(e, os, orders, order, positions');
    MovedThenPaid(e, applied, ps);
  }

  /** The event's effect on both dictionaries, once it is known not to be an empty fill. */
  method ApplyEffective(e: LedgerEvent, orders: Orders, positions: Positions,
                        ghost os: map<string, Order>, ghost ps: map<string, Position>)
    returns (orders': Orders, positions': Positions)
    requires Separate(orders) && Separate(positions) && (e.IsFill() ==> e.IsEffectiveFill())
    requires os == OrderModels(orders) && ps == PositionModels(positions)
    modifies orders.Values, positions.Values
    ensures Separate(orders') && Separate(positions')
    ensures fresh(orders'.Values - orders.Values) && fresh(positions'.Values - positions.Values)
    ensures OrderModels(orders') == Put(os, e.clientOrderId, OrderAfter(e, Get(os, e.clientOrderId)))
    ensures PositionModels(positions') == Put(ps, e.contractId,
              PositionAfter(e, AppliedQty(e, Get(os, e.clientOrderId)), Get(ps, e.contractId)))
  {
    var order, applied;
    orders', order, applied := TouchOrder(e, orders);
    positions' := MoveAndSettle(e, os, ps, orders', order, applied, positions);
  }

  /** `_apply`: one accepted event changes the dictionaries as `Projection.Apply` says. */
  method Apply(e: LedgerEvent, orders: Orders, positions: Positions)
    returns (orders': Orders, positions': Positions)
    requires Separate(orders) && Separate(positions)
    modifies orders.Values, positions.Values
    ensures Separate(orders') && Separate(positions')
    ensures fresh(orders'.Values - orders.Values) && fresh(positions'.Values - positions.Values)
    ensures OrderModels(orders') == Put(old(OrderModels(orders)), e.clientOrderId,
              OrderAfter(e, Get(old(OrderModels(orders)), e.clientOrderId)))
    ensures PositionModels(positions') == Put(old(PositionModels(positions)), e.contractId,
              PositionAfter(e, AppliedQty(e, Get(old(OrderModels(orders)), e.clientOrderId)),
                            Get(old(PositionModels(positions)), e.contractId)))
  {
    orders', positions' := orders, positions;
    if e.IsFill() && (e.price.None? || e.quantity <= 0.0) {
      return;
    }
    ghost var os, ps := OrderModels(orders), PositionModels(positions);
    orders', positions' := ApplyEffective(e, orders, positions, os, ps);
  }

  // ---- the whole stream -----------------------------------------------------------------

  /** Adds up the premium of the open positions, in whatever order they come. */
  method CapitalUsage(positions: map<string, Position>) returns (capital: real)
    ensures capital == Capital(positions)
  {
    capital := 0.0;
    var rest := positions;
    while rest.Keys != {}
      invariant rest.Keys <= positions.Keys
      invariant capital + Capital(rest) == Capital(positions)
      decreases |rest.Keys|
    {
      var c :| c in rest.Keys;
      CapitalSplit(rest, c);
      capital := capital + CapitalIn(rest[c]);
      assert (rest - {c}).Keys == rest.Keys - {c};
      rest := rest - {c};
    }
  }

  /** `LedgerProjector.project`: computes the projection of the stream. */
  method ProjectEvents(events: seq<LedgerEvent>) returns (state: ProjectionState)
    ensures state == Project(events)
  {
    var orders: Orders, positions: Positions := map[], map[];
    var seenIds: set<nat>, seenKeys: set<string> := {}, {};
    for i := 0 to |events|
      invariant Separate(orders) && Separate(positions)
      invariant fresh(orders.Values) && fresh(positions.Values)
      invariant Run(EMPTY, events[..i])
        == Ledger(OrderModels(orders), PositionModels(positions), seenIds, seenKeys)
    {
      var event := events[i];
      assert events[..i + 1][..i] == events[..i];
      if event.eventId in seenIds || event.key in seenKeys {
        continue;
      }
      seenIds, seenKeys := seenIds + {event.eventId}, seenKeys + {event.key};
      orders, positions := Apply(event, orders, positions);
    }
    assert events[..|events|] == events;
    var capital := CapitalUsage(Frozen(PositionModels(positions)));
    state := ProjectionState(OrderModels(orders), Frozen(PositionModels(positions)), capital, seenIds, seenKeys);
  }
}
