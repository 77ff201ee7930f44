/** What an order's fields say about its history, event by event and for every history. */
module OrderLaws {
  import opened Options
  import opened LedgerEvents
  import opened Projection
  import opened FillSafety

  // ---- status ---------------------------------------------------------------------------------

  predicate Meets(o: Option<Order>, statuses: set<OrderStatus>) {
    o.Some? && o.value.status in statuses
  }

  /** A fill the order still has room for: always when there is no order yet or overfill is allowed. */
  predicate Lands(e: LedgerEvent, o: Option<Order>) {
    && e.IsFill() && e.price.Some? && e.quantity > 0.0
    && (o.None? || e.metadata.allowOverfill || o.value.submittedQty <= 0.0 || o.value.filledQty < o.value.submittedQty)
  }

  /** A fill that is announced as the last one, opens the order, or reaches what was submitted. */
  predicate Finishes(e: LedgerEvent, o: Option<Order>) {
    || e.eventType.FinalFill? || o.None?
    || (o.value.submittedQty > 0.0 && o.value.filledQty + e.quantity >= o.value.submittedQty)
  }

  /** The words a broker's status is read from. */
  function Word(s: OrderStatus): string {
    match s
    case Submitted => "submitted"
    case Accepted => "accepted"
    case PartiallyFilled => "partially_filled"
    case Filled => "filled"
    case Cancelled => "cancelled"
    case Rejected => "rejected"
  }

  /** A correction of an existing order to status `s`: by the broker's word, or by the fill it restates. */
  predicate Restates(s: OrderStatus, e: LedgerEvent, o: Option<Order>) {
    && e.IsCorrection() && o.Some?
    && (|| (e.metadata.correctionKind == "order_status" && e.metadata.status == Some(Word(s)))
        || (&& e.metadata.correctionKind == "order_fill_qty"
            && (|| (s == Filled && 0.0 < o.value.submittedQty <= e.quantity)
                || (s == PartiallyFilled && e.quantity > 0.0
                    && (o.value.submittedQty <= 0.0 || e.quantity < o.value.submittedQty)))))
  }

  /** The event gives the order status `s`. */
  predicate Sets(s: OrderStatus, e: LedgerEvent, o: Option<Order>) {
    || Restates(s, e, o)
    || match s
       case Submitted => e.eventType.OrderSubmissionRequested? && !Meets(o, {Filled, Cancelled, Rejected})
       case Accepted => e.eventType.BrokerOrderAccepted? && !Meets(o, {Filled, Cancelled, Rejected, PartiallyFilled})
       case PartiallyFilled => Lands(e, o) && !Finishes(e, o)
       case Filled => Lands(e, o) && Finishes(e, o)
       case Cancelled => e.eventType.Cancellation? && !Meets(o, {Filled, Rejected})
       case Rejected => e.eventType.Rejection? && !Meets(o, {Filled, Cancelled})
  }

  /** The event takes status `s` away: a closed order yields to a landing fill and to corrections only. */
  predicate Unsets(s: OrderStatus, e: LedgerEvent, o: Option<Order>) {
    || Lands(e, o)
    || (exists other :: other != s && Restates(other, e, o))
    || match s
       case Submitted => e.eventType.BrokerOrderAccepted? || e.eventType.Cancellation? || e.eventType.Rejection?
       case Accepted => e.eventType.OrderSubmissionRequested? || e.eventType.Cancellation? || e.eventType.Rejection?
       case PartiallyFilled =>
         e.eventType.OrderSubmissionRequested? || e.eventType.Cancellation? || e.eventType.Rejection?
       case Filled => false
       case Cancelled => false
       case Rejected => false
  }

  lemma WordsAreRead(text: string, s: OrderStatus)
    ensures ParseStatus(text) == Some(s) <==> text == Word(s)
  {
    WordsDiffer();
  }

  lemma WordsDiffer()
    ensures forall s, t :: Word(s) == Word(t) ==> s == t
  {
    forall s, t | Word(s) == Word(t) ensures s == t {
      assert |Word(s)| == |Word(t)| && Word(s)[0] == Word(t)[0];
    }
  }

  /** One event, every status. */
  lemma StatusStep(s: OrderStatus, e: LedgerEvent, o: Option<Order>)
    ensures Meets(OrderAfter(e, o), {s}) <==> Sets(s, e, o) || (Meets(o, {s}) && !Unsets(s, e, o))
  {
    if e.IsCorrection() && o.Some? {
      CorrectedStatus(s, e, o.value);
    } else {
      assert forall t :: !Restates(t, e, o);
      if e.IsFill() {
        FillStatusStep(s, e, o);
      }
    }
  }

  lemma FillStatusStep(s: OrderStatus, e: LedgerEvent, o: Option<Order>)
    requires e.IsFill()
    ensures Meets(OrderAfter(e, o), {s})
      <==> if Lands(e, o) then s == if Finishes(e, o) then Filled else PartiallyFilled else Meets(o, {s})
  {
  }

  lemma CorrectedStatus(s: OrderStatus, e: LedgerEvent, o: Order)
    requires e.IsCorrection()
    ensures OrderAfter(e, Some(o)).value.status == s
      <==> Restates(s, e, Some(o)) || (o.status == s && !exists other :: other != s && Restates(other, e, Some(o)))
  {
    WordsDiffer();
    if e.metadata.status.Some? {
      forall t ensures ParseStatus(e.metadata.status.value) == Some(t) <==> e.metadata.status.value == Word(t) {
        WordsAreRead(e.metadata.status.value, t);
      }
    }
    var after := OrderAfter(e, Some(o)).value.status;
    if after != o.status {
      assert Restates(after, e, Some(o));
    }
  }

  predicate SetsAt(s: OrderStatus, h: seq<LedgerEvent>, i: nat)
    requires i < |h|
  {
    Sets(s, h[i], After(h, i))
  }

  predicate UnsetsAt(s: OrderStatus, h: seq<LedgerEvent>, i: nat)
    requires i < |h|
  {
    Unsets(s, h[i], After(h, i))
  }

  /** Event `i` gave the order the status and none of the following, up to moment `n`, took it away. */
  predicate HeldSince(s: OrderStatus, h: seq<LedgerEvent>, i: int, n: nat)
    requires n <= |h|
  {
    0 <= i < n && SetsAt(s, h, i) && forall j :: i < j < n ==> !UnsetsAt(s, h, j)
  }

  ghost predicate Holds(s: OrderStatus, h: seq<LedgerEvent>, n: nat)
    requires n <= |h|
  {
    exists i :: HeldSince(s, h, i, n)
  }

  lemma {:induction false} HoldsNext(s: OrderStatus, h: seq<LedgerEvent>, n: nat)
    requires n < |h|
    ensures Holds(s, h, n + 1) <==> SetsAt(s, h, n) || (Holds(s, h, n) && !UnsetsAt(s, h, n))
  {
    if SetsAt(s, h, n) {
      assert HeldSince(s, h, n, n + 1);
    } else if Holds(s, h, n) && !UnsetsAt(s, h, n) {
      var i :| HeldSince(s, h, i, n);
      assert HeldSince(s, h, i, n + 1);
    }
    if Holds(s, h, n + 1) && !SetsAt(s, h, n) {
      var i :| HeldSince(s, h, i, n + 1);
      assert HeldSince(s, h, i, n);
    }
  }

  /**
   The status law, for every history and at every moment of it: the order reads `s` if and only
   if some event gave it `s` and none since has taken it away.
   */
  lemma {:induction false} StatusLaw(h: seq<LedgerEvent>, n: nat, s: OrderStatus)
    requires n <= |h|
    ensures Meets(After(h, n), {s}) <==> Holds(s, h, n)
  {
    if n == 0 {
      assert h[..0] == [];
    } else {
      StatusLaw(h, n - 1, s);
      AfterNext(h, n - 1);
      StatusStep(s, h[n - 1], After(h, n - 1));
      HoldsNext(s, h, n - 1);
    }
  }

  /** The same for the order inside any stream: its accepted events alone decide its status. */
  lemma {:induction false} StatusInStream(es: seq<LedgerEvent>, oid: string, s: OrderStatus)
    ensures Meets(OrderOf(Run(EMPTY, es), oid), {s}) <==> Holds(s, History(es, oid), |History(es, oid)|)
  {
    var h := History(es, oid);
    OrderDependsOnItsHistory(es, oid);
    assert h[..|h|] == h;
    StatusLaw(h, |h|, s);
  }

  /** A cancellation met the order neither filled nor rejected, and no fill has landed since. */
  predicate CancelledSince(h: seq<LedgerEvent>, i: int) {
    && 0 <= i < |h| && h[i].eventType.Cancellation? && !Meets(After(h, i), {Filled, Rejected})
    && forall j :: i < j < |h| ==> !LandsAt(h, j)
  }

  predicate LandsAt(h: seq<LedgerEvent>, i: nat)
    requires i < |h|
  {
    Lands(h[i], After(h, i))
  }

  /** Without corrections, for instance: cancelled means cancelled while open, and nothing filled since. */
  lemma CancelledExactly(h: seq<LedgerEvent>)
    requires forall e :: e in h ==> !e.IsCorrection()
    ensures Meets(OrderFrom(h), {Cancelled}) <==> exists i :: CancelledSince(h, i)
  {
    assert h[..|h|] == h;
    StatusLaw(h, |h|, Cancelled);
    forall j: nat | j < |h|
      ensures SetsAt(Cancelled, h, j)
        <==> h[j].eventType.Cancellation? && !Meets(After(h, j), {Filled, Rejected})
      ensures UnsetsAt(Cancelled, h, j) <==> LandsAt(h, j)
    {
      assert h[j] in h;
    }
    forall i ensures HeldSince(Cancelled, h, i, |h|) <==> CancelledSince(h, i) {
    }
  }

  // ---- quantities -------------------------------------------------------------------------------

  function FilledOf(o: Option<Order>): real {
    if o.Some? then o.value.filledQty else 0.0
  }

  /** What a fill adds: all of it, or what there is room for. */
  function Taken(e: LedgerEvent, o: Option<Order>): real {
    if !Lands(e, o) then 0.0
    else if e.metadata.allowOverfill || o.None? || o.value.submittedQty <= 0.0 then e.quantity
    else Min(e.quantity, o.value.submittedQty - o.value.filledQty)
  }

  predicate RestatesFill(e: LedgerEvent, o: Option<Order>) {
    e.IsCorrection() && o.Some? && e.metadata.correctionKind == "order_fill_qty"
  }

  /** One event moves the filled quantity by what lands of it, or restates it, and does nothing else to it. */
  lemma FilledStep(e: LedgerEvent, o: Option<Order>)
    ensures FilledOf(OrderAfter(e, o)) == if RestatesFill(e, o) then e.quantity else FilledOf(o) + Taken(e, o)
  {
  }

  function AverageOf(o: Option<Order>): Option<real> {
    if o.Some? then o.value.avgFillPrice else None
  }

  /**
   One event and the average: what lands adds its own cost to the cost of what was filled, the first fill
   sets the average, a restated fill may bring a price of its own, and nothing else moves it.
   */
  lemma FillAverageStep(e: LedgerEvent, o: Option<Order>)
    ensures var avg, avg' := AverageOf(o), AverageOf(OrderAfter(e, o));
      if RestatesFill(e, o) then avg' == if e.price.Some? then e.price else avg
      else if !Lands(e, o) then avg' == avg
      else if FilledOf(o) <= 0.0 || avg.None? then avg' == e.price
      else avg'.Some? && CostsAddUp(avg'.value, FilledOf(o), Taken(e, o), avg.value, e.Price())
  {
    if Lands(e, o) && FilledOf(o) > 0.0 && AverageOf(o).Some? {
      AverageTimesQuantity(AverageOf(o).value, FilledOf(o), e.Price(), Taken(e, o));
      assert AverageOf(OrderAfter(e, o)) == Some(WeightedMean(AverageOf(o).value, FilledOf(o), e.Price(), Taken(e, o)));
    }
  }

  /** The new average of all that is filled costs what was filled and what was taken cost. */
  predicate CostsAddUp(avg': real, filled: real, taken: real, avg: real, price: real) {
    avg' * (filled + taken) == avg * filled + price * taken
  }

  /** The quantity of the effective fills, applied or not. */
  function FillTotal(h: seq<LedgerEvent>): real {
    if h == [] then 0.0
    else FillTotal(h[..|h| - 1]) + if h[|h| - 1].IsEffectiveFill() then h[|h| - 1].quantity else 0.0
  }

  /** An orderly order is filled by all its fills together, up to what was submitted. */
  lemma {:induction false} FilledIsTheSmaller(h: seq<LedgerEvent>)
    requires Orderly(h) && h != []
    ensures OrderFrom(h).Some? && OrderFrom(h).value.filledQty == Min(h[0].quantity, FillTotal(h))
  {
    var front, e := h[..|h| - 1], h[|h| - 1];
    FillSafety.FillSafety(h);
    FilledStep(e, OrderFrom(front));
    if |h| > 1 {
      FrontIsOrderly(h);
      FillSafety.FillSafety(front);
      FilledIsTheSmaller(front);
    } else {
      assert front == [] && FillTotal(front) == 0.0;
    }
  }

  // ---- the other fields -------------------------------------------------------------------------------

  /** Events that create their order when it is missing. */
  predicate Opens(e: LedgerEvent) {
    || e.eventType.OrderSubmissionRequested? || e.eventType.BrokerOrderAccepted?
    || e.eventType.Cancellation? || e.eventType.Rejection? || e.IsEffectiveFill()
  }

  datatype Field = Size | Terms | Label

  /** The event decides the field: its opening does, and so do the events named here. */
  predicate Decides(f: Field, e: LedgerEvent, o: Option<Order>) {
    || (o.None? && Opens(e))
    || (o.Some? && match f
        case Size => e.eventType.OrderSubmissionRequested?
                     || (e.eventType.BrokerOrderAccepted? && e.quantity > 0.0 && o.value.submittedQty == 0.0)
        case Terms => e.eventType.OrderSubmissionRequested?
        case Label => Truthy(e.brokerOrderId)
                      && (|| e.eventType.OrderSubmissionRequested? || e.eventType.BrokerOrderAccepted?
                          || e.IsEffectiveFill()))
  }

  /** The order has the field as the event gives it; a cancellation or rejection submits nothing. */
  predicate Agrees(f: Field, e: LedgerEvent, o: Order) {
    match f
    case Size => o.submittedQty == if e.eventType.Cancellation? || e.eventType.Rejection? then 0.0 else e.quantity
    case Terms => o.side == e.side && o.contractId == e.contractId
    case Label => o.brokerOrderId == e.brokerOrderId
  }

  predicate SameField(f: Field, o: Order, o': Order) {
    match f
    case Size => o'.submittedQty == o.submittedQty
    case Terms => o'.side == o.side && o'.contractId == o.contractId
    case Label => o'.brokerOrderId == o.brokerOrderId
  }

  lemma OpensExactly(e: LedgerEvent, o: Option<Order>)
    ensures OrderAfter(e, o).Some? <==> o.Some? || Opens(e)
  {
  }

  lemma FieldStep(f: Field, e: LedgerEvent, o: Option<Order>)
    ensures OrderAfter(e, o).Some? ==>
      if Decides(f, e, o) then Agrees(f, e, OrderAfter(e, o).value)
      else o.Some? && SameField(f, o.value, OrderAfter(e, o).value)
  {
  }

  predicate DecidesAt(f: Field, h: seq<LedgerEvent>, i: nat)
    requires i < |h|
  {
    Decides(f, h[i], After(h, i))
  }

  /** Event `i` is the last before moment `n` that decides the field. */
  predicate LastToDecide(f: Field, h: seq<LedgerEvent>, i: int, n: nat)
    requires n <= |h|
  {
    0 <= i < n && DecidesAt(f, h, i) && forall j :: i < j < n ==> !DecidesAt(f, h, j)
  }

  /** The order has the field as the last event before moment `n` that decides it gave it. */
  ghost predicate AsLastDecided(f: Field, h: seq<LedgerEvent>, n: nat, o: Order)
    requires n <= |h|
  {
    exists i :: LastToDecide(f, h, i, n) && Agrees(f, h[i], o)
  }

  lemma AgreesStays(f: Field, e: LedgerEvent, o: Order, o': Order)
    requires Agrees(f, e, o) && SameField(f, o, o')
    ensures Agrees(f, e, o')
  {
  }

  lemma {:induction false} StillLastToDecide(f: Field, h: seq<LedgerEvent>, i: int, n: nat)
    requires n < |h| && LastToDecide(f, h, i, n) && !DecidesAt(f, h, n)
    ensures LastToDecide(f, h, i, n + 1)
  {
  }

  lemma {:induction false} NowLastToDecide(f: Field, h: seq<LedgerEvent>, n: nat)
    requires n < |h| && DecidesAt(f, h, n)
    ensures LastToDecide(f, h, n, n + 1)
  {
  }

  lemma {:induction false} AsDecidedNext(f: Field, h: seq<LedgerEvent>, n: nat, o: Option<Order>, o': Order)
    requires n < |h|
    requires o.Some? ==> AsLastDecided(f, h, n, o.value)
    requires if DecidesAt(f, h, n) then Agrees(f, h[n], o') else o.Some? && SameField(f, o.value, o')
    ensures AsLastDecided(f, h, n + 1, o')
  {
    if DecidesAt(f, h, n) {
      NowLastToDecide(f, h, n);
    } else {
      var i :| LastToDecide(f, h, i, n) && Agrees(f, h[i], o.value);
      StillLastToDecide(f, h, i, n);
      AgreesStays(f, h[i], o.value, o');
    }
  }

  /** Each field is as its last deciding event gave it. */
  lemma {:induction false} FieldLaw(h: seq<LedgerEvent>, n: nat, f: Field)
    requires n <= |h|
    ensures After(h, n).Some? ==> AsLastDecided(f, h, n, After(h, n).value)
  {
    if n == 0 {
      assert h[..0] == [];
    } else {
      FieldLaw(h, n - 1, f);
      AfterNext(h, n - 1);
      if After(h, n).Some? {
        FieldStep(f, h[n - 1], After(h, n - 1));
        AsDecidedNext(f, h, n - 1, After(h, n - 1), After(h, n).value);
      }
    }
  }

  /** There is an order once an event has opened it. */
  lemma {:induction false} OrderExistsExactly(h: seq<LedgerEvent>, n: nat)
    requires n <= |h|
    ensures After(h, n).Some? <==> exists i :: 0 <= i < n && Opens(h[i])
  {
    if n == 0 {
      assert h[..0] == [];
    } else {
      OrderExistsExactly(h, n - 1);
      AfterNext(h, n - 1);
      OpensExactly(h[n - 1], After(h, n - 1));
    }
  }

  // ---- fees -----------------------------------------------------------------------------------------

  /** The events an order is charged for: all but notices, ineffective fills and what comes before it. */
  predicate Charges(e: LedgerEvent, o: Option<Order>) {
    && !e.IsPositionNotice() && (e.IsFill() ==> e.IsEffectiveFill())
    && (o.Some? || Opens(e))
  }

  function FeesOn(o: Option<Order>): real {
    if o.Some? then o.value.fees else 0.0
  }

  function Charged(h: seq<LedgerEvent>, n: nat): real
    requires n <= |h|
  {
    if n == 0 then 0.0
    else Charged(h, n - 1) + if Charges(h[n - 1], After(h, n - 1)) then h[n - 1].Fee() else 0.0
  }

  /** An order's fees are the sum over the events it is charged for. */
  lemma {:induction false} OrderFeesAddUp(h: seq<LedgerEvent>, n: nat)
    requires n <= |h|
    ensures FeesOn(After(h, n)) == Charged(h, n)
  {
    if n == 0 {
      assert h[..0] == [];
    } else {
      OrderFeesAddUp(h, n - 1);
      AfterNext(h, n - 1);
      OneFee(h[n - 1], After(h, n - 1));
    }
  }

  lemma OneFee(e: LedgerEvent, o: Option<Order>)
    ensures FeesOn(OrderAfter(e, o)) == FeesOn(o) + if Charges(e, o) then e.Fee() else 0.0
  {
  }
}
