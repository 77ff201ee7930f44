/** The append-only ledger facts (joker/ledger/schemas.py). */
module LedgerEvents {
  import opened Options

  datatype Side = Buy | Sell

  datatype EventType =
    | OrderSubmissionRequested
    | BrokerOrderAccepted
    | PartialFill
    | FinalFill
    | Cancellation
    | Rejection
    | PositionOpened
    | PositionResized
    | PositionClosed
    | FeeRecorded
    | ReconciliationCorrection

  /** The metadata keys the projector reads; every other key is in `rest`. */
  datatype Metadata = Metadata(
    allowOverfill: bool,
    correctionKind: string,
    status: Option<string>,
    absoluteQuantity: Option<real>,
    rest: map<string, string>)

  const NO_METADATA := Metadata(false, "", None, None, map[])

  /**
   Decimals are exact reals and UUIDs are the numbers they denote. A stamp is the
   rank of its stored ISO text, which is what the store orders by.
   */
  datatype EventRecord = EventRecord(
    eventId: nat,
    brokerAccountId: string,
    clientOrderId: string,
    brokerOrderId: Option<string>,
    contractId: string,
    side: Side,
    quantity: real,
    price: Option<real>,
    exchangeStamp: int,
    sourceEventId: Option<nat>,
    key: string,
    eventType: EventType,
    fees: Option<real>,
    metadata: Metadata,
    sessionId: string,
    positionId: Option<string>,
    createdStamp: int)
  {
    /**
     The numeric rules the event's validators enforce on construction. They also refuse a blank
     account, order, contract, key or session text; here those may be any text.
     */
    predicate Valid() {
      && quantity >= 0.0
      && (price.Some? ==> price.value >= 0.0)
      && (fees.Some? ==> fees.value >= 0.0)
    }

    predicate IsFill() {
      eventType.PartialFill? || eventType.FinalFill?
    }

    /** A fill the projector acts on: it needs a price and a positive quantity. */
    predicate IsEffectiveFill() {
      IsFill() && price.Some? && quantity > 0.0
    }

    predicate IsPositionNotice() {
      eventType.PositionOpened? || eventType.PositionResized? || eventType.PositionClosed?
    }

    predicate IsCorrection() {
      eventType.ReconciliationCorrection?
    }

    /** `signed` as a position sees it: sells count down. */
    function Signed(amount: real): real {
      if side.Buy? then amount else -amount
    }

    function Price(): real {
      price.GetOr(0.0)
    }

    function Fee(): real {
      fees.GetOr(0.0)
    }
  }

  type LedgerEvent = e: EventRecord | e.Valid()
    witness EventRecord(0, "", "", None, "", Buy, 0.0, None, 0, None, "", FeeRecorded, None, NO_METADATA, "", None, 0)
}
