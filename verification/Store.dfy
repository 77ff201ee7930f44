/** The append-only table with unique idempotency keys (joker/ledger/store.py). */
module Store {
  import opened Options
  import opened LedgerEvents
  import opened Projection
  import opened Sorting

  datatype Outcome = Inserted | Replayed | Conflict

  /** The same business fact: stamps and the event's own id may differ. */
  predicate Equivalent(a: LedgerEvent, b: LedgerEvent) {
    a.(eventId := b.eventId, exchangeStamp := b.exchangeStamp, createdStamp := b.createdStamp) == b
  }

  /** The table's two unique constraints. */
  predicate UniqueRows(rows: seq<LedgerEvent>) {
    forall i, j :: 0 <= i < j < |rows| ==> rows[i].eventId != rows[j].eventId && rows[i].key != rows[j].key
  }

  function RowFor(rows: seq<LedgerEvent>, key: string): Option<LedgerEvent> {
    if rows == [] then None
    else if rows[|rows| - 1].key == key then Some(rows[|rows| - 1])
    else RowFor(rows[..|rows| - 1], key)
  }

  predicate HasId(rows: seq<LedgerEvent>, id: nat) {
    exists r :: r in rows && r.eventId == id
  }

  function Verdict(rows: seq<LedgerEvent>, e: LedgerEvent): Outcome {
    match RowFor(rows, e.key)
    case Some(r) => if Equivalent(r, e) then Replayed else Conflict
    case None => if HasId(rows, e.eventId) then Conflict else Inserted
  }

  function Append(rows: seq<LedgerEvent>, e: LedgerEvent): seq<LedgerEvent> {
    if Verdict(rows, e) == Inserted then rows + [e] else rows
  }

  function AppendAll(rows: seq<LedgerEvent>, es: seq<LedgerEvent>): seq<LedgerEvent> {
    if es == [] then rows else Append(AppendAll(rows, es[..|es| - 1]), es[|es| - 1])
  }

  /** `ORDER BY exchange_timestamp, created_at, ledger_event_id`. */
  predicate Earlier(a: LedgerEvent, b: LedgerEvent) {
    || a.exchangeStamp < b.exchangeStamp
    || (a.exchangeStamp == b.exchangeStamp
        && (a.createdStamp < b.createdStamp
            || (a.createdStamp == b.createdStamp && a.eventId <= b.eventId)))
  }

  function AllEvents(rows: seq<LedgerEvent>): seq<LedgerEvent> {
    Sort(rows, Earlier)
  }

  class LedgerStore {
    var rows: seq<LedgerEvent>

    constructor ()
      ensures rows == [] && UniqueRows(rows)
    {
      rows := [];
    }

    /** Looks the key up; the table holds at most one row for it. */
    method GetByIdempotencyKey(key: string) returns (found: Option<LedgerEvent>)
      ensures found == RowFor(rows, key)
    {
      found := None;
      for i := 0 to |rows|
        invariant found == RowFor(rows[..i], key)
      {
        assert rows[..i + 1][..i] == rows[..i];
        if rows[i].key == key {
          found := Some(rows[i]);
        }
      }
      assert rows[..|rows|] == rows;
    }

    method AppendEvent(e: LedgerEvent) returns (outcome: Outcome)
      requires UniqueRows(rows)
      modifies this
      ensures outcome == Verdict(old(rows), e)
      ensures rows == Append(old(rows), e)
      ensures UniqueRows(rows) && old(rows) <= rows
    {
      var existing := GetByIdempotencyKey(e.key);
      if existing.Some? {
        return if Equivalent(existing.value, e) then Replayed else Conflict;
      }
      if exists r :: r in rows && r.eventId == e.eventId {
        return Conflict;
      }
      RowForFinds(rows, e.key);
      rows := rows + [e];
      outcome := Inserted;
    }
  }

  /** The business fields of an event: all but its id and its two stamps. */
  datatype Field =
    | AccountField | OrderField | BrokerOrderField | ContractField | SideField | QuantityField | PriceField
    | SourceField | KeyField | TypeField | FeesField | MetadataField | SessionField | PositionField

  /** Two events agree in a field. */
  predicate AgreeIn(f: Field, a: LedgerEvent, b: LedgerEvent) {
    match f
    case AccountField => a.brokerAccountId == b.brokerAccountId
    case OrderField => a.clientOrderId == b.clientOrderId
    case BrokerOrderField => a.brokerOrderId == b.brokerOrderId
    case ContractField => a.contractId == b.contractId
    case SideField => a.side == b.side
    case QuantityField => a.quantity == b.quantity
    case PriceField => a.price == b.price
    case SourceField => a.sourceEventId == b.sourceEventId
    case KeyField => a.key == b.key
    case TypeField => a.eventType == b.eventType
    case FeesField => a.fees == b.fees
    case MetadataField => a.metadata == b.metadata
    case SessionField => a.sessionId == b.sessionId
    case PositionField => a.positionId == b.positionId
  }

  lemma EachField(a: LedgerEvent, b: LedgerEvent)
    requires forall f :: AgreeIn(f, a, b)
    ensures a.brokerAccountId == b.brokerAccountId && a.clientOrderId == b.clientOrderId
    ensures a.brokerOrderId == b.brokerOrderId && a.contractId == b.contractId && a.side == b.side
    ensures a.quantity == b.quantity && a.price == b.price && a.sourceEventId == b.sourceEventId
    ensures a.key == b.key && a.eventType == b.eventType && a.fees == b.fees && a.metadata == b.metadata
    ensures a.sessionId == b.sessionId && a.positionId == b.positionId
  {
    assert AgreeIn(AccountField, a, b) && AgreeIn(OrderField, a, b) && AgreeIn(BrokerOrderField, a, b);
    assert AgreeIn(ContractField, a, b) && AgreeIn(SideField, a, b) && AgreeIn(QuantityField, a, b);
    assert AgreeIn(PriceField, a, b) && AgreeIn(SourceField, a, b) && AgreeIn(KeyField, a, b);
    assert AgreeIn(TypeField, a, b) && AgreeIn(FeesField, a, b) && AgreeIn(MetadataField, a, b);
    assert AgreeIn(SessionField, a, b) && AgreeIn(PositionField, a, b);
  }

  lemma EquivalentExactly(a: LedgerEvent, b: LedgerEvent)
    ensures Equivalent(a, b) <==> forall f :: AgreeIn(f, a, b)
  {
    if forall f :: AgreeIn(f, a, b) {
      EachField(a, b);
    }
  }

  /**
   What an append answers, exactly. A known key is a replay when the row under it agrees in every
   business field and a conflict when it does not; a new key is a conflict when the id is taken.
   */
  lemma VerdictExactly(rows: seq<LedgerEvent>, e: LedgerEvent)
    requires UniqueRows(rows)
    ensures Verdict(rows, e) == Replayed <==> exists r :: r in rows && forall f :: AgreeIn(f, r, e)
    ensures Verdict(rows, e) == Inserted <==> forall r :: r in rows ==> r.key != e.key && r.eventId != e.eventId
  {
    RowForFinds(rows, e.key);
    forall r | r in rows ensures Equivalent(r, e) <==> forall f :: AgreeIn(f, r, e) {
      EquivalentExactly(r, e);
    }
    forall r | r in rows && forall f :: AgreeIn(f, r, e) ensures RowFor(rows, e.key) == Some(r) {
      assert AgreeIn(KeyField, r, e);
      OnlyRowOfItsKey(rows, r);
    }
  }

  lemma OnlyRowOfItsKey(rows: seq<LedgerEvent>, r: LedgerEvent)
    requires UniqueRows(rows) && r in rows
    ensures RowFor(rows, r.key) == Some(r)
  {
    RowForFinds(rows, r.key);
    var i :| 0 <= i < |rows| && rows[i] == r;
    var j :| 0 <= j < |rows| && rows[j] == RowFor(rows, r.key).value;
  }

  lemma {:induction false} RowForFinds(rows: seq<LedgerEvent>, key: string)
    ensures RowFor(rows, key).None? <==> forall r :: r in rows ==> r.key != key
    ensures RowFor(rows, key).Some? ==> RowFor(rows, key).value in rows && RowFor(rows, key).value.key == key
  {
    if rows != [] {
      RowForFinds(rows[..|rows| - 1], key);
      assert rows == rows[..|rows| - 1] + [rows[|rows| - 1]];
    }
  }

  lemma {:induction false} AppendAllConcat(rows: seq<LedgerEvent>, s: seq<LedgerEvent>, t: seq<LedgerEvent>)
    ensures AppendAll(rows, s + t) == AppendAll(AppendAll(rows, s), t)
    decreases |t|
  {
    if t == [] {
      assert s + t == s;
    } else {
      assert (s + t)[..|s + t| - 1] == s + t[..|t| - 1];
      AppendAllConcat(rows, s, t[..|t| - 1]);
    }
  }

  /** Every run keeps at most one row per key and per id, and never changes or drops a row. */
  lemma {:induction false} RowsAreUniqueAndPermanent(rows: seq<LedgerEvent>, es: seq<LedgerEvent>)
    requires UniqueRows(rows)
    ensures UniqueRows(AppendAll(rows, es)) && rows <= AppendAll(rows, es)
  {
    if es != [] {
      RowsAreUniqueAndPermanent(rows, es[..|es| - 1]);
      RowForFinds(AppendAll(rows, es[..|es| - 1]), es[|es| - 1].key);
    }
  }

  /**
   A retry, arriving anywhere after a row for its key exists, leaves the table and hence
   every projection read from it as they were, whatever its own stamps and id.
   */
  lemma RetriesAreInvisible(before: seq<LedgerEvent>, retry: LedgerEvent, after: seq<LedgerEvent>)
    requires RowFor(AppendAll([], before), retry.key).Some?
    ensures AppendAll([], before + [retry] + after) == AppendAll([], before + after)
    ensures Project(AllEvents(AppendAll([], before + [retry] + after)))
      == Project(AllEvents(AppendAll([], before + after)))
  {
    AppendAllConcat([], before, [retry]);
    assert [retry][..0] == [];
    AppendAllConcat([], before + [retry], after);
    AppendAllConcat([], before, after);
  }

  lemma EarlierIsTotal()
    ensures TotalPreorder(Earlier)
  {
  }

  /** Events with distinct keys and ids are all kept. */
  lemma {:induction false} DistinctAreAllKept(es: seq<LedgerEvent>)
    requires UniqueRows(es)
    ensures AppendAll([], es) == es
  {
    if es != [] {
      var front := es[..|es| - 1];
      DistinctAreAllKept(front);
      RowForFinds(front, es[|es| - 1].key);
      assert es == front + [es[|es| - 1]];
    }
  }

  /** Arrival order is forgotten: two stores fed the same distinct events read back the same stream. */
  lemma {:induction false} ArrivalOrderIsForgotten(s: seq<LedgerEvent>, t: seq<LedgerEvent>)
    requires UniqueRows(s) && UniqueRows(t)
    requires multiset(s) == multiset(t)
    ensures AllEvents(AppendAll([], s)) == AllEvents(AppendAll([], t))
    ensures Project(AllEvents(AppendAll([], s))) == Project(AllEvents(AppendAll([], t)))
  {
    DistinctAreAllKept(s);
    DistinctAreAllKept(t);
    EarlierIsTotal();
    SortIgnoresInputOrder(s, t, Earlier);
  }

  /** What is read back is the table itself, in canonical order, none of it skipped when projected. */
  lemma {:induction false} ReadsAreCanonical(es: seq<LedgerEvent>)
    ensures var rows := AppendAll([], es);
      && multiset(AllEvents(rows)) == multiset(rows)
      && SortedBy(AllEvents(rows), Earlier)
      && Project(AllEvents(rows)).seenKeys == (set r | r in rows :: r.key)
  {
    var rows := AppendAll([], es);
    EarlierIsTotal();
    SortSorts(rows, Earlier);
    SortPermutes(rows, Earlier);
    RowsAreUniqueAndPermanent([], es);
    UniqueAsMultiset(rows, AllEvents(rows));
    KeysSeen(AllEvents(rows));
  }

  /** Reading back goes by exchange time, then by creation, then by id, smallest first. */
  lemma ReadsInStampOrder(es: seq<LedgerEvent>, i: nat, j: nat)
    requires i < j < |AllEvents(AppendAll([], es))|
    ensures var a, b := AllEvents(AppendAll([], es))[i], AllEvents(AppendAll([], es))[j];
      && a.exchangeStamp <= b.exchangeStamp
      && (a.exchangeStamp == b.exchangeStamp ==> a.createdStamp <= b.createdStamp)
      && (a.exchangeStamp == b.exchangeStamp && a.createdStamp == b.createdStamp ==> a.eventId < b.eventId)
  {
    ReadsAreCanonical(es);
    RowsAreUniqueAndPermanent([], es);
    UniqueAsMultiset(AppendAll([], es), AllEvents(AppendAll([], es)));
  }

  lemma UniqueAsMultiset(rows: seq<LedgerEvent>, read: seq<LedgerEvent>)
    requires UniqueRows(rows) && multiset(rows) == multiset(read)
    ensures UniqueRows(read)
  {
    forall i, j | 0 <= i < j < |read|
      ensures read[i].eventId != read[j].eventId && read[i].key != read[j].key
    {
      SameElements(rows, read);
      if read[i] == read[j] {
        TwiceInSeq(read, i, j);
        OnceInRows(rows, read[i]);
      } else {
        RowsShareNothing(rows, read[i], read[j]);
      }
    }
  }

  lemma RowsShareNothing(rows: seq<LedgerEvent>, a: LedgerEvent, b: LedgerEvent)
    requires UniqueRows(rows) && a in rows && b in rows && a != b
    ensures a.eventId != b.eventId && a.key != b.key
  {
    var i :| 0 <= i < |rows| && rows[i] == a;
    var j :| 0 <= j < |rows| && rows[j] == b;
    assert i < j || j < i;
  }

  lemma TwiceInSeq(s: seq<LedgerEvent>, i: nat, j: nat)
    requires i < j < |s| && s[i] == s[j]
    ensures multiset(s)[s[i]] >= 2
  {
    assert s == s[..j] + [s[j]] + s[j + 1..];
    assert s[i] in s[..j];
  }

  lemma OnceInRows(rows: seq<LedgerEvent>, r: LedgerEvent)
    requires UniqueRows(rows)
    ensures multiset(rows)[r] <= 1
  {
    if r in rows {
      var i :| 0 <= i < |rows| && rows[i] == r;
      assert rows == rows[..i] + [r] + rows[i + 1..];
      assert r !in rows[..i] && r !in rows[i + 1..];
    }
  }

  lemma {:induction false} KeysSeen(es: seq<LedgerEvent>)
    requires UniqueRows(es)
    ensures Run(EMPTY, es).seenKeys == (set e | e in es :: e.key)
    ensures Run(EMPTY, es).seenIds == (set e | e in es :: e.eventId)
  {
    if es != [] {
      var front, e := es[..|es| - 1], es[|es| - 1];
      KeysSeen(front);
      NamesOfOneMore(front, e);
      assert es == front + [e];
      assert !IsDuplicate(Run(EMPTY, front), e);
    }
  }

  lemma NamesOfOneMore(front: seq<LedgerEvent>, e: LedgerEvent)
    ensures (set x | x in front + [e] :: x.key) == (set x | x in front :: x.key) + {e.key}
    ensures (set x | x in front + [e] :: x.eventId) == (set x | x in front :: x.eventId) + {e.eventId}
  {
  }
}
