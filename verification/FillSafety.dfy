/** What one order's fills can and cannot do, over every stream. */
module FillSafety {
  import opened Options
  import opened LedgerEvents
  import opened Projection

  /** The events of order `oid` that the projector does not skip as duplicates. */
  function History(es: seq<LedgerEvent>, oid: string): seq<LedgerEvent> {
    if es == [] then []
    else
      var front, e := es[..|es| - 1], es[|es| - 1];
      if e.clientOrderId == oid && !IsDuplicate(Run(EMPTY, front), e) then History(front, oid) + [e]
      else History(front, oid)
  }

  /** The order those events build on their own. */
  function OrderFrom(h: seq<LedgerEvent>): Option<Order> {
    if h == [] then None else OrderAfter(h[|h| - 1], OrderFrom(h[..|h| - 1]))
  }

  /** Projecting a whole stream and projecting one order's own events agree on that order. */
  lemma {:induction false} OrderDependsOnItsHistory(es: seq<LedgerEvent>, oid: string)
    ensures OrderOf(Run(EMPTY, es), oid) == OrderFrom(History(es, oid))
  {
    if es != [] {
      var front, e := es[..|es| - 1], es[|es| - 1];
      OrderDependsOnItsHistory(front, oid);
      if e.clientOrderId == oid && !IsDuplicate(Run(EMPTY, front), e) {
        assert (History(front, oid) + [e])[..|History(front, oid)|] == History(front, oid);
        NoEventDropsAnOrder(e, OrderFrom(History(front, oid)));
      }
    }
  }

  lemma NoEventDropsAnOrder(e: LedgerEvent, o: Option<Order>)
    ensures o.Some? ==> OrderAfter(e, o).Some?
  {
  }

  /** Submitted once, first, for a positive quantity; never corrected, never allowed to overfill. */
  predicate Orderly(h: seq<LedgerEvent>) {
    && (h != [] ==> h[0].eventType.OrderSubmissionRequested? && h[0].quantity > 0.0)
    && (forall i :: 0 < i < |h| ==> !h[i].eventType.OrderSubmissionRequested?)
    && (forall i :: 0 <= i < |h| ==> !h[i].IsCorrection() && !h[i].metadata.allowOverfill)
  }

  /** What an event pays for the quantity it adds to the order. */
  function Paid(e: LedgerEvent, o: Option<Order>): real {
    e.Price() * AppliedQty(e, o)
  }

  /** Total paid for what the fills in `h` added. */
  function Notional(h: seq<LedgerEvent>): real {
    if h == [] then 0.0 else Notional(h[..|h| - 1]) + Paid(h[|h| - 1], OrderFrom(h[..|h| - 1]))
  }

  predicate Sound(o: Order, submitted: real, notional: real) {
    && o.submittedQty == submitted > 0.0
    && 0.0 <= o.filledQty <= submitted
    && (o.avgFillPrice.None? <==> o.filledQty == 0.0)
    && o.avgFillPrice.GetOr(0.0) * o.filledQty == notional
    && (o.filledQty == submitted ==> o.status == Filled)
  }

  lemma AverageTimesQuantity(avg: real, prior: real, price: real, applied: real)
    requires prior >= 0.0 && applied > 0.0
    ensures WeightedMean(avg, prior, price, applied) * (prior + applied) == avg * prior + price * applied
  {
  }

  lemma FillKeepsSound(e: LedgerEvent, o: Order, applied: real, submitted: real, notional: real)
    requires Sound(o, submitted, notional) && 0.0 < applied <= submitted - o.filledQty
    ensures Sound(FilledOrder(e, o, applied), submitted, notional + e.Price() * applied)
  {
    if o.filledQty > 0.0 {
      AverageTimesQuantity(o.avgFillPrice.value, o.filledQty, e.Price(), applied);
    } else {
      assert o.avgFillPrice.GetOr(0.0) * o.filledQty == 0.0;
    }
  }

  lemma SoundIgnoresLabels(o: Order, o': Order, submitted: real, notional: real)
    requires Sound(o, submitted, notional)
    requires o'.submittedQty == o.submittedQty && o'.filledQty == o.filledQty && o'.avgFillPrice == o.avgFillPrice
    requires o.status == Filled ==> o'.status == Filled
    ensures Sound(o', submitted, notional)
  {
  }

  lemma StepKeepsSound(e: LedgerEvent, o: Order, submitted: real, notional: real)
    requires Sound(o, submitted, notional)
    requires !e.eventType.OrderSubmissionRequested? && !e.IsCorrection() && !e.metadata.allowOverfill
    ensures OrderAfter(e, Some(o)).Some?
    ensures Sound(OrderAfter(e, Some(o)).value, submitted, notional + Paid(e, Some(o)))
  {
    var applied := AppliedQty(e, Some(o));
    if applied > 0.0 {
      var known := WithBrokerId(e, o);
      SoundIgnoresLabels(o, known, submitted, notional);
      FillKeepsSound(e, known, applied, submitted, notional);
      SoundIgnoresLabels(FilledOrder(e, known, applied), OrderAfter(e, Some(o)).value, submitted,
                         notional + e.Price() * applied);
    } else {
      assert applied == 0.0;
      SoundIgnoresLabels(o, OrderAfter(e, Some(o)).value, submitted, notional);
    }
  }

  lemma FrontIsOrderly(h: seq<LedgerEvent>)
    requires Orderly(h) && |h| > 1
    ensures Orderly(h[..|h| - 1]) && h[..|h| - 1][0] == h[0]
    ensures var e := h[|h| - 1];
      !e.eventType.OrderSubmissionRequested? && !e.IsCorrection() && !e.metadata.allowOverfill
  {
  }

  lemma SubmissionIsSound(e: LedgerEvent)
    requires e.eventType.OrderSubmissionRequested? && e.quantity > 0.0
    ensures OrderAfter(e, None).Some? && Paid(e, None) == 0.0
    ensures Sound(OrderAfter(e, None).value, e.quantity, 0.0)
  {
  }

  /**
   Fill safety: an orderly order is never filled beyond what was submitted, its average
   price times its filled quantity is exactly what the applied fills cost, and a
   completely filled order reads `Filled`.
   */
  lemma {:induction false} FillSafety(h: seq<LedgerEvent>)
    requires Orderly(h) && h != []
    ensures OrderFrom(h).Some? && Sound(OrderFrom(h).value, h[0].quantity, Notional(h))
  {
    var front, e := h[..|h| - 1], h[|h| - 1];
    if |h| > 1 {
      FrontIsOrderly(h);
      FillSafety(front);
      StepKeepsSound(e, OrderFrom(front).value, h[0].quantity, Notional(front));
    } else {
      assert front == [] && OrderFrom(front) == None && Notional(front) == 0.0;
      SubmissionIsSound(e);
    }
  }

  lemma {:induction false} FillSafetyInStream(es: seq<LedgerEvent>, oid: string)
    requires Orderly(History(es, oid)) && History(es, oid) != []
    ensures var h := History(es, oid);
      OrderOf(Run(EMPTY, es), oid).Some? && Sound(OrderOf(Run(EMPTY, es), oid).value, h[0].quantity, Notional(h))
  {
    OrderDependsOnItsHistory(es, oid);
    FillSafety(History(es, oid));
  }

  lemma WeightedMeanBetween(avg: real, prior: real, price: real, applied: real, lo: real, hi: real)
    requires prior > 0.0 && applied > 0.0
    requires lo <= avg <= hi && lo <= price <= hi
    ensures lo <= WeightedMean(avg, prior, price, applied) <= hi
  {
    var m := WeightedMean(avg, prior, price, applied);
    assert m * prior + m * applied == avg * prior + price * applied by {
      AverageTimesQuantity(avg, prior, price, applied);
      Distribute(m, prior, applied);
    }
    NotBelow(m, avg, prior, price, applied, lo);
    NotAbove(m, avg, prior, price, applied, hi);
  }

  lemma NotBelow(m: real, a: real, n: real, b: real, k: real, lo: real)
    requires n > 0.0 && k > 0.0 && lo <= a && lo <= b
    requires m * n + m * k == a * n + b * k
    ensures lo <= m
  {
    if m < lo {
      MultiplyPositive(a, m, n);
      MultiplyPositive(b, m, k);
    }
  }

  lemma NotAbove(m: real, a: real, n: real, b: real, k: real, hi: real)
    requires n > 0.0 && k > 0.0 && a <= hi && b <= hi
    requires m * n + m * k == a * n + b * k
    ensures m <= hi
  {
    if m > hi {
      MultiplyPositive(m, a, n);
      MultiplyPositive(m, b, k);
    }
  }

  lemma Distribute(a: real, b: real, c: real)
    ensures a * (b + c) == a * b + a * c
  {
  }

  lemma MultiplyPositive(a: real, b: real, n: real)
    requires n > 0.0 && a > b
    ensures a * n > b * n
  {
  }

  predicate AveragesWithin(o: Order, lo: real, hi: real) {
    o.avgFillPrice.Some? ==> lo <= o.avgFillPrice.value <= hi
  }

  lemma StepKeepsAverageWithin(e: LedgerEvent, o: Option<Order>, lo: real, hi: real)
    requires !e.IsCorrection()
    requires o.Some? ==> AveragesWithin(o.value, lo, hi)
    requires e.IsEffectiveFill() ==> lo <= e.Price() <= hi
    ensures OrderAfter(e, o).Some? ==> AveragesWithin(OrderAfter(e, o).value, lo, hi)
  {
    var applied := AppliedQty(e, o);
    if applied > 0.0 && o.Some? && o.value.filledQty > 0.0 && o.value.avgFillPrice.Some? {
      var known := WithBrokerId(e, o.value);
      assert OrderAfter(e, o) == Some(PaidOrder(e, FilledOrder(e, known, applied)));
      WeightedMeanBetween(known.avgFillPrice.value, known.filledQty, e.Price(), applied, lo, hi);
    }
  }

  /** The average fill price lies between the cheapest and the dearest fill, corrections aside. */
  lemma {:induction false} AverageIsBetweenFills(h: seq<LedgerEvent>, lo: real, hi: real)
    requires forall i :: 0 <= i < |h| ==> !h[i].IsCorrection()
    requires forall i :: 0 <= i < |h| && h[i].IsEffectiveFill() ==> lo <= h[i].Price() <= hi
    ensures OrderFrom(h).Some? ==> AveragesWithin(OrderFrom(h).value, lo, hi)
  {
    if h != [] {
      AverageIsBetweenFills(h[..|h| - 1], lo, hi);
      StepKeepsAverageWithin(h[|h| - 1], OrderFrom(h[..|h| - 1]), lo, hi);
    }
  }

  /** Once completely filled, nothing that follows changes quantity, average or status. */
  lemma {:induction false} CompleteIsFinal(h: seq<LedgerEvent>, more: seq<LedgerEvent>)
    requires Orderly(h + more) && h != []
    requires OrderFrom(h).Some? && OrderFrom(h).value.filledQty == h[0].quantity
    ensures OrderFrom(h + more).Some?
    ensures var o, o' := OrderFrom(h).value, OrderFrom(h + more).value;
      o'.status == Filled && o'.filledQty == o.filledQty && o'.avgFillPrice == o.avgFillPrice
  {
    assert Orderly(h) by {
      assert forall i :: 0 <= i < |h| ==> (h + more)[i] == h[i];
    }
    FillSafety(h);
    if more == [] {
      assert h + more == h;
    } else {
      var n := |more| - 1;
      var before := h + more[..n];
      assert (h + more)[..|h + more| - 1] == before;
      assert forall i :: 0 <= i < |before| ==> (h + more)[i] == before[i];
      CompleteIsFinal(h, more[..n]);
      FillSafety(before);
      assert (h + more)[|h + more| - 1] == more[n];
      assert AppliedQty(more[n], OrderFrom(before)) == 0.0;
    }
  }

  // ---- when the overfill rule can break ---------------------------------------------

  predicate WithinSubmitted(o: Option<Order>) {
    o.Some? ==> 0.0 <= o.value.filledQty <= o.value.submittedQty
  }

  /**
   The events that push an order past its submitted quantity without any correction: a
   resubmission for less than is filled, and a fill that is either flagged or lands on an
   order still at zero submitted quantity.
   */
  predicate Overruns(e: LedgerEvent, o: Option<Order>) {
    && o.Some?
    && (|| (e.eventType.OrderSubmissionRequested? && e.quantity < o.value.filledQty)
        || (&& e.IsEffectiveFill()
            && (e.metadata.allowOverfill || o.value.submittedQty == 0.0)
            && e.quantity > o.value.submittedQty - o.value.filledQty))
  }

  /** "Filled never exceeds submitted" survives an uncorrected event exactly when it is none of those. */
  lemma OverfillRuleExactly(e: LedgerEvent, o: Option<Order>)
    requires WithinSubmitted(o) && !e.IsCorrection()
    ensures WithinSubmitted(OrderAfter(e, o)) <==> !Overruns(e, o)
  {
  }

  /** The order after the first `n` events. */
  function After(h: seq<LedgerEvent>, n: nat): Option<Order>
    requires n <= |h|
  {
    OrderFrom(h[..n])
  }

  lemma AfterNext(h: seq<LedgerEvent>, n: nat)
    requires n < |h|
    ensures After(h, n + 1) == OrderAfter(h[n], After(h, n))
  {
    assert h[..n + 1][..n] == h[..n];
  }

  /**
   Over a whole history without corrections: the order is within its submitted quantity at
   every moment if and only if no event overruns when it arrives.
   */
  lemma {:induction false} OverfillRuleOverHistories(h: seq<LedgerEvent>, n: nat)
    requires n <= |h| && forall i :: 0 <= i < n ==> !h[i].IsCorrection()
    ensures (forall i :: 0 <= i <= n ==> WithinSubmitted(After(h, i)))
       <==> (forall i :: 0 <= i < n ==> !Overruns(h[i], After(h, i)))
  {
    if n == 0 {
      assert h[..0] == [];
    } else {
      OverfillRuleOverHistories(h, n - 1);
      AfterNext(h, n - 1);
      if WithinSubmitted(After(h, n - 1)) {
        OverfillRuleExactly(h[n - 1], After(h, n - 1));
      }
    }
  }

  lemma StepTouches(l: Ledger, e: LedgerEvent)
    requires !IsDuplicate(l, e)
    ensures OrderOf(Step(l, e), e.clientOrderId) == OrderAfter(e, OrderOf(l, e.clientOrderId))
    ensures Step(l, e).seenIds == l.seenIds + {e.eventId} && Step(l, e).seenKeys == l.seenKeys + {e.key}
  {
    NoEventDropsAnOrder(e, OrderOf(l, e.clientOrderId));
  }

  lemma FillAndResubmit(first: LedgerEvent, fill: LedgerEvent, again: LedgerEvent)
    requires first.eventType.OrderSubmissionRequested? && again.eventType.OrderSubmissionRequested?
    requires fill.IsEffectiveFill() && fill.quantity <= first.quantity
    ensures var o := OrderAfter(again, OrderAfter(fill, OrderAfter(first, None)));
      o.Some? && o.value.filledQty == fill.quantity && o.value.submittedQty == again.quantity
  {
    assert AppliedQty(fill, OrderAfter(first, None)) == fill.quantity;
  }

  /** Submitted, partly filled, submitted again for less than is filled: the stream ends overfilled. */
  lemma ResubmissionOverfills(first: LedgerEvent, fill: LedgerEvent, again: LedgerEvent)
    requires first.eventType.OrderSubmissionRequested? && again.eventType.OrderSubmissionRequested?
    requires fill.IsEffectiveFill() && again.quantity < fill.quantity <= first.quantity
    requires first.clientOrderId == fill.clientOrderId == again.clientOrderId
    requires first.eventId != fill.eventId && first.eventId != again.eventId && fill.eventId != again.eventId
    requires first.key != fill.key && first.key != again.key && fill.key != again.key
    ensures var o := OrderOf(Run(EMPTY, [first, fill, again]), first.clientOrderId);
      o.Some? && o.value.filledQty == fill.quantity > again.quantity == o.value.submittedQty
  {
    var l1 := Step(EMPTY, first);
    var l2 := Step(l1, fill);
    StepTouches(EMPTY, first);
    StepTouches(l1, fill);
    StepTouches(l2, again);
    FillAndResubmit(first, fill, again);
    ThreeSteps(EMPTY, first, fill, again);
  }

  lemma ThreeSteps(l: Ledger, a: LedgerEvent, b: LedgerEvent, c: LedgerEvent)
    ensures Run(l, [a, b, c]) == Step(Step(Step(l, a), b), c)
  {
    assert [a, b, c][..2] == [a, b] && [a, b][..1] == [a] && [a][..0] == [];
    assert Run(l, [a]) == Step(l, a);
    assert Run(l, [a, b]) == Step(Run(l, [a]), b);
  }

  /** For instance: ten submitted, five filled, three submitted again. */
  lemma TenFiveThreeOverfills() returns (es: seq<LedgerEvent>)
    ensures forall e :: e in es ==> !e.IsCorrection() && !e.metadata.allowOverfill
    ensures var o := OrderOf(Run(EMPTY, es), "o");
      o.Some? && o.value.filledQty == 5.0 && o.value.submittedQty == 3.0
  {
    var first: LedgerEvent := EventRecord(
      0, "acct", "o", None, "c", Buy, 10.0, None, 0, None, "a", OrderSubmissionRequested, None, NO_METADATA,
      "session", None, 0);
    var fill: LedgerEvent := EventRecord(
      1, "acct", "o", None, "c", Buy, 5.0, Some(1.0), 0, None, "b", PartialFill, None, NO_METADATA,
      "session", None, 0);
    var again: LedgerEvent := EventRecord(
      2, "acct", "o", None, "c", Buy, 3.0, None, 0, None, "c", OrderSubmissionRequested, None, NO_METADATA,
      "session", None, 0);
    es := [first, fill, again];
    DifferentKeys();
    ResubmissionOverfills(first, fill, again);
  }

  lemma DifferentKeys()
    ensures "a" != "b" && "a" != "c" && "b" != "c"
  {
    assert "a"[0] == 'a' && "b"[0] == 'b' && "c"[0] == 'c';
  }
}
