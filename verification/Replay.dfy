/** Replays, retries and interleavings: which changes to a stream its projection cannot see. */
module Replay {
  import opened Options
  import opened LedgerEvents
  import opened Projection

  lemma {:induction false} SeenGrows(l: Ledger, es: seq<LedgerEvent>)
    ensures l.seenIds <= Run(l, es).seenIds && l.seenKeys <= Run(l, es).seenKeys
    ensures forall e :: e in es ==> IsDuplicate(Run(l, es), e)
  {
    if es != [] {
      var front, last := es[..|es| - 1], es[|es| - 1];
      SeenGrows(l, front);
      assert forall e :: e in es ==> e in front || e == last;
    }
  }

  lemma {:induction false} DuplicatesAreNoOps(l: Ledger, es: seq<LedgerEvent>)
    requires forall e :: e in es ==> IsDuplicate(l, e)
    ensures Run(l, es) == l
  {
    if es != [] {
      DuplicatesAreNoOps(l, es[..|es| - 1]);
    }
  }

  /** Feeding a stream again, wholly or partly and in any order, changes nothing. */
  lemma ReplayIsIdempotent(l: Ledger, s: seq<LedgerEvent>, again: seq<LedgerEvent>)
    requires forall e :: e in again ==> e in s
    ensures Run(l, s + again) == Run(l, s)
  {
    RunConcat(l, s, again);
    SeenGrows(l, s);
    DuplicatesAreNoOps(Run(l, s), again);
  }

  lemma ProjectTwiceIsProjectOnce(s: seq<LedgerEvent>)
    ensures Project(s + s) == Project(s)
  {
    ReplayIsIdempotent(EMPTY, s, s);
  }

  /** The events the projector acts on. */
  function Accepted(es: seq<LedgerEvent>): seq<LedgerEvent> {
    if es == [] then []
    else
      var front, e := es[..|es| - 1], es[|es| - 1];
      if IsDuplicate(Run(EMPTY, front), e) then Accepted(front) else Accepted(front) + [e]
  }

  predicate Clash(d: LedgerEvent, e: LedgerEvent) {
    d.eventId == e.eventId || d.key == e.key
  }

  /** An event is skipped exactly when it shares its id or its key with one acted on before. */
  lemma {:induction false} DuplicateMeansClash(es: seq<LedgerEvent>, d: LedgerEvent)
    ensures IsDuplicate(Run(EMPTY, es), d) <==> exists e :: e in Accepted(es) && Clash(d, e)
  {
    if es != [] {
      var front, e := es[..|es| - 1], es[|es| - 1];
      DuplicateMeansClash(front, d);
      var l := Run(EMPTY, front);
      if !IsDuplicate(l, e) {
        assert IsDuplicate(Step(l, e), d) <==> IsDuplicate(l, d) || Clash(d, e);
        assert forall x :: x in Accepted(es) <==> x in Accepted(front) || x == e;
      }
    }
  }

  /** The events acted on never clash with one another, so each fact counts once. */
  lemma {:induction false} AcceptedNeverClash(es: seq<LedgerEvent>)
    ensures forall i, j :: 0 <= i < j < |Accepted(es)| ==> !Clash(Accepted(es)[j], Accepted(es)[i])
  {
    if es != [] {
      AcceptedNeverClash(es[..|es| - 1]);
      DuplicateMeansClash(es[..|es| - 1], es[|es| - 1]);
    }
  }

  /** Dropping the skipped events leaves the same ledger. */
  lemma {:induction false} OnlyAcceptedMatters(es: seq<LedgerEvent>)
    ensures Run(EMPTY, es) == Run(EMPTY, Accepted(es))
  {
    if es != [] {
      var front, e := es[..|es| - 1], es[|es| - 1];
      OnlyAcceptedMatters(front);
      if !IsDuplicate(Run(EMPTY, front), e) {
        assert Accepted(es)[..|Accepted(es)| - 1] == Accepted(front);
      }
    }
  }

  /** A retry that clashes with an event already acted on is invisible wherever it arrives. */
  lemma RetryIsInvisible(before: seq<LedgerEvent>, retry: LedgerEvent, after: seq<LedgerEvent>)
    requires exists e :: e in Accepted(before) && Clash(retry, e)
    ensures Project(before + [retry] + after) == Project(before + after)
  {
    DuplicateMeansClash(before, retry);
    DuplicatesAreNoOps(Run(EMPTY, before), [retry]);
    RunConcat(EMPTY, before, [retry]);
    RunConcat(EMPTY, before + [retry], after);
    RunConcat(EMPTY, before, after);
  }

  // ---- interleavings ------------------------------------------------------------------

  /** `w` is a merge of `s` and `t` that keeps the order within each. */
  ghost predicate Interleaves(w: seq<LedgerEvent>, s: seq<LedgerEvent>, t: seq<LedgerEvent>) {
    if w == [] then s == [] && t == []
    else
      var n := |w| - 1;
      || (s != [] && s[|s| - 1] == w[n] && Interleaves(w[..n], s[..|s| - 1], t))
      || (t != [] && t[|t| - 1] == w[n] && Interleaves(w[..n], s, t[..|t| - 1]))
  }

  /** No order, contract, event id or key occurs in both streams. */
  ghost predicate Unrelated(s: seq<LedgerEvent>, t: seq<LedgerEvent>) {
    forall a, b :: a in s && b in t ==>
      && a.clientOrderId != b.clientOrderId
      && a.contractId != b.contractId
      && !Clash(a, b)
  }

  /** A ledger mentions only what its stream mentioned. */
  ghost predicate MentionedIn(l: Ledger, es: seq<LedgerEvent>) {
    && (forall o :: o in l.orders ==> exists e :: e in es && e.clientOrderId == o)
    && (forall c :: c in l.positions ==> exists e :: e in es && e.contractId == c)
    && (forall i :: i in l.seenIds ==> exists e :: e in es && e.eventId == i)
    && (forall k :: k in l.seenKeys ==> exists e :: e in es && e.key == k)
  }

  lemma {:induction false} RunMentions(es: seq<LedgerEvent>)
    ensures MentionedIn(Run(EMPTY, es), es)
  {
    if es != [] {
      var front, last := es[..|es| - 1], es[|es| - 1];
      RunMentions(front);
      assert last in es && forall e :: e in front ==> e in es;
    }
  }

  function Union(a: Ledger, b: Ledger): Ledger {
    Ledger(a.orders + b.orders, a.positions + b.positions, a.seenIds + b.seenIds, a.seenKeys + b.seenKeys)
  }

  predicate Apart(a: Ledger, b: Ledger) {
    a.orders.Keys !! b.orders.Keys && a.positions.Keys !! b.positions.Keys
  }

  predicate Foreign(e: LedgerEvent, l: Ledger) {
    && e.clientOrderId !in l.orders && e.contractId !in l.positions
    && e.eventId !in l.seenIds && e.key !in l.seenKeys
  }

  /** A ledger after an event that leaves order `o` and position `p`. */
  function Patched(l: Ledger, e: LedgerEvent, o: Option<Order>, p: Option<Position>): Ledger {
    Ledger(Put(l.orders, e.clientOrderId, o), Put(l.positions, e.contractId, p),
           l.seenIds + {e.eventId}, l.seenKeys + {e.key})
  }

  lemma PatchBesides(a: Ledger, b: Ledger, e: LedgerEvent, o: Option<Order>, p: Option<Position>)
    requires Apart(a, b) && Foreign(e, b)
    ensures Patched(Union(a, b), e, o, p) == Union(Patched(a, e, o, p), b)
    ensures Patched(Union(b, a), e, o, p) == Union(b, Patched(a, e, o, p))
    ensures Apart(Patched(a, e, o, p), b)
  {
    PutBesides(a.orders, b.orders, e.clientOrderId, o);
    PutBesides(a.positions, b.positions, e.contractId, p);
  }

  /** A step depends on the ledger only through the order and position it names. */
  lemma StepIsPatch(l: Ledger, e: LedgerEvent, o: Option<Order>, p: Option<Position>)
    requires !IsDuplicate(l, e) && OrderOf(l, e.clientOrderId) == o && PositionOf(l, e.contractId) == p
    ensures Step(l, e) == Patched(l, e, OrderAfter(e, o), PositionAfter(e, AppliedQty(e, o), p))
  {
  }

  lemma StepBesides(a: Ledger, b: Ledger, e: LedgerEvent)
    requires Apart(a, b) && Foreign(e, b)
    ensures Step(Union(a, b), e) == Union(Step(a, e), b)
    ensures Step(Union(b, a), e) == Union(b, Step(a, e))
    ensures Apart(Step(a, e), b)
  {
    if !IsDuplicate(a, e) {
      var o, p := OrderOf(a, e.clientOrderId), PositionOf(a, e.contractId);
      StepIsPatch(a, e, o, p);
      StepIsPatch(Union(a, b), e, o, p);
      StepIsPatch(Union(b, a), e, o, p);
      PatchBesides(a, b, e, OrderAfter(e, o), PositionAfter(e, AppliedQty(e, o), p));
    }
  }

  lemma PutBesides<V>(m: map<string, V>, n: map<string, V>, k: string, v: Option<V>)
    requires k !in n
    ensures Put(m + n, k, v) == Put(m, k, v) + n
    ensures Put(n + m, k, v) == n + Put(m, k, v)
    ensures Put(m, k, v).Keys <= m.Keys + {k}
  {
    if v.Some? {
      assert (m + n)[k := v.value] == m[k := v.value] + n;
    }
  }

  ghost predicate Unmentioned(e: LedgerEvent, t: seq<LedgerEvent>) {
    forall b :: b in t ==> e.clientOrderId != b.clientOrderId && e.contractId != b.contractId && !Clash(e, b)
  }

  lemma UnrelatedElements(s: seq<LedgerEvent>, t: seq<LedgerEvent>, e: LedgerEvent)
    requires Unrelated(s, t)
    ensures e in s ==> Unmentioned(e, t)
    ensures e in t ==> Unmentioned(e, s)
  {
  }

  lemma UnmentionedIsForeign(e: LedgerEvent, t: seq<LedgerEvent>)
    requires Unmentioned(e, t)
    ensures Foreign(e, Run(EMPTY, t))
  {
    RunMentions(t);
  }

  lemma StepOf(w: seq<LedgerEvent>)
    requires w != []
    ensures Run(EMPTY, w) == Step(Run(EMPTY, w[..|w| - 1]), w[|w| - 1])
    ensures w[|w| - 1] in w && forall e :: e in w[..|w| - 1] ==> e in w
  {
  }

  lemma {:induction false} InterleavingUnion(w: seq<LedgerEvent>, s: seq<LedgerEvent>, t: seq<LedgerEvent>)
    requires Interleaves(w, s, t) && Unrelated(s, t)
    ensures Apart(Run(EMPTY, s), Run(EMPTY, t))
    ensures Run(EMPTY, w) == Union(Run(EMPTY, s), Run(EMPTY, t))
    decreases |w|
  {
    if w != [] {
      var n := |w| - 1;
      StepOf(w);
      UnrelatedElements(s, t, w[n]);
      if s != [] && s[|s| - 1] == w[n] && Interleaves(w[..n], s[..|s| - 1], t) {
        var s' := s[..|s| - 1];
        StepOf(s);
        InterleavingUnion(w[..n], s', t);
        UnmentionedIsForeign(w[n], t);
        StepBesides(Run(EMPTY, s'), Run(EMPTY, t), w[n]);
      } else {
        var t' := t[..|t| - 1];
        StepOf(t);
        InterleavingUnion(w[..n], s, t');
        UnmentionedIsForeign(w[n], s);
        StepBesides(Run(EMPTY, t'), Run(EMPTY, s), w[n]);
      }
    }
  }

  /**
   Interleaving independence: however two unrelated streams are merged, the projection is
   the union of their own projections and the capital in use is the sum.
   */
  lemma {:induction false} InterleavingIndependence(w: seq<LedgerEvent>, s: seq<LedgerEvent>, t: seq<LedgerEvent>)
    requires Interleaves(w, s, t) && Unrelated(s, t)
    ensures Project(w).orders == Project(s).orders + Project(t).orders
    ensures Project(w).positions == Project(s).positions + Project(t).positions
    ensures Project(w).capitalUsage == Project(s).capitalUsage + Project(t).capitalUsage
    ensures Project(s).orders.Keys !! Project(t).orders.Keys
    ensures Project(s).positions.Keys !! Project(t).positions.Keys
  {
    InterleavingUnion(w, s, t);
    var a, b := Run(EMPTY, s).positions, Run(EMPTY, t).positions;
    assert Frozen(a + b) == Frozen(a) + Frozen(b);
    CapitalOfUnion(Frozen(a), Frozen(b));
  }
}
