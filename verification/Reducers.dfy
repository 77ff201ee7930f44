/** Merging lists of artefacts by id (joker/graph/reducers.py). */
module Reducers {
  import opened Options
  import opened Sorting
  import opened Text

  /**
   An artefact: its id as text, what its sort key puts before the id (nothing, or a node name
   and a colon) and the rest of it. Ids are UUID text, all of one length.
   */
  datatype Item = Item(prefix: string, id: string, payload: nat) {
    function Key(): string { prefix + id }
  }

  const ID_LENGTH := 36

  predicate HasIds(items: seq<Item>) {
    forall x :: x in items ==> |x.id| == ID_LENGTH
  }

  predicate KeyLe(x: Item, y: Item) {
    TextLe(x.Key(), y.Key())
  }

  // ---- the merge ------------------------------------------------------------------------------

  /** The first item of the list with the id. */
  function First(items: seq<Item>, id: string): Option<Item> {
    if items == [] then None
    else if First(items[..|items| - 1], id).Some? then First(items[..|items| - 1], id)
    else if items[|items| - 1].id == id then Some(items[|items| - 1])
    else None
  }

  /** The dictionary's values in insertion order: the first item of each id. */
  function Firsts(items: seq<Item>): seq<Item> {
    if items == [] then []
    else
      var front, last := items[..|items| - 1], items[|items| - 1];
      if First(front, last.id).Some? then Firsts(front) else Firsts(front) + [last]
  }

  function Canonical(items: seq<Item>): seq<Item> {
    Sort(Firsts(items), KeyLe)
  }

  function Merge(existing: seq<Item>, incoming: seq<Item>): seq<Item> {
    Canonical(existing + incoming)
  }

  /** `_merge_models`: absent lists count as empty; a conflicting duplicate is dropped like an equal one. */
  method MergeModels(existing: Option<seq<Item>>, incoming: Option<seq<Item>>) returns (result: seq<Item>)
    ensures result == Merge(existing.GetOr([]), incoming.GetOr([]))
  {
    var items := existing.GetOr([]) + incoming.GetOr([]);
    var merged: map<string, Item>, order: seq<Item> := map[], [];
    for i := 0 to |items|
      invariant order == Firsts(items[..i])
      invariant forall id :: id in merged <==> First(items[..i], id).Some?
    {
      assert items[..i + 1][..i] == items[..i];
      var item := items[i];
      if item.id !in merged {
        merged, order := merged[item.id := item], order + [item];
      }
    }
    assert items[..|items|] == items;
    result := Sort(order, KeyLe);
  }

  /** `find_conflicting_ids`: ids of incoming items that differ from the existing item of that id. */
  function Conflicts(existing: seq<Item>, incoming: seq<Item>): seq<string> {
    if incoming == [] then []
    else
      var front, last := incoming[..|incoming| - 1], incoming[|incoming| - 1];
      var prior := Last(existing, last.id);
      Conflicts(existing, front) + (if prior.Some? && prior.value != last then [last.id] else [])
  }

  /** The dictionary it builds keeps the last existing item of an id. */
  function Last(items: seq<Item>, id: string): Option<Item> {
    if items == [] then None
    else if items[|items| - 1].id == id then Some(items[|items| - 1])
    else Last(items[..|items| - 1], id)
  }

  method FindConflictingIds(existing: Option<seq<Item>>, incoming: Option<seq<Item>>) returns (conflicts: seq<string>)
    ensures conflicts == Conflicts(existing.GetOr([]), incoming.GetOr([]))
  {
    var left: map<string, Item> := map[];
    var before := existing.GetOr([]);
    for i := 0 to |before|
      invariant forall id :: id in left <==> Last(before[..i], id).Some?
      invariant forall id :: id in left ==> left[id] == Last(before[..i], id).value
    {
      assert before[..i + 1][..i] == before[..i];
      left := left[before[i].id := before[i]];
    }
    assert before[..|before|] == before;
    conflicts := [];
    var after := incoming.GetOr([]);
    for i := 0 to |after|
      invariant conflicts == Conflicts(before, after[..i])
    {
      assert after[..i + 1][..i] == after[..i];
      if after[i].id in left && left[after[i].id] != after[i] {
        conflicts := conflicts + [after[i].id];
      }
    }
    assert after[..|after|] == after;
  }

  // ---- the shape of a merge -----------------------------------------------------------------------

  lemma {:induction false} FirstFinds(items: seq<Item>, id: string)
    ensures First(items, id).Some? ==> First(items, id).value in items && First(items, id).value.id == id
    ensures First(items, id).None? ==> forall x :: x in items ==> x.id != id
  {
    if items != [] {
      FirstFinds(items[..|items| - 1], id);
      assert items == items[..|items| - 1] + [items[|items| - 1]];
    }
  }

  predicate DistinctIds(items: seq<Item>) {
    forall i, j :: 0 <= i < j < |items| ==> items[i].id != items[j].id
  }

  lemma {:induction false} FirstsAreFirst(items: seq<Item>)
    ensures DistinctIds(Firsts(items))
    ensures forall x :: x in Firsts(items) <==> First(items, x.id) == Some(x)
  {
    if items != [] {
      var front, last := items[..|items| - 1], items[|items| - 1];
      FirstsAreFirst(front);
      FirstFinds(front, last.id);
      forall i | 0 <= i < |Firsts(front)| && First(front, last.id).None? ensures Firsts(front)[i].id != last.id {
        assert Firsts(front)[i] in Firsts(front);
      }
    }
  }

  lemma {:induction false} FirstOfConcat(a: seq<Item>, b: seq<Item>, id: string)
    ensures First(a + b, id) == if First(a, id).Some? then First(a, id) else First(b, id)
    decreases |b|
  {
    if b == [] {
      assert a + b == a;
    } else {
      assert (a + b)[..|a + b| - 1] == a + b[..|b| - 1];
      FirstOfConcat(a, b[..|b| - 1], id);
    }
  }

  lemma KeyOrderIsTotal()
    ensures TotalPreorder(KeyLe)
  {
    forall x: Item, y: Item ensures KeyLe(x, y) || KeyLe(y, x) {
      TextLeTotal(x.Key(), y.Key());
    }
    forall x: Item, y: Item, z: Item | KeyLe(x, y) && KeyLe(y, z) ensures KeyLe(x, z) {
      TextLeTransitive(x.Key(), y.Key(), z.Key());
    }
  }

  /** Equal keys end in equal ids, so items with distinct ids never tie. */
  lemma DistinctIdsNeverTie(items: seq<Item>)
    requires HasIds(items) && DistinctIds(items)
    ensures TieFree(items, KeyLe)
  {
    forall x, y | x in items && y in items && KeyLe(x, y) && KeyLe(y, x) ensures x == y {
      TextLeAntisymmetric(x.Key(), y.Key());
      assert x.Key()[|x.Key()| - ID_LENGTH..] == x.id;
      assert y.Key()[|y.Key()| - ID_LENGTH..] == y.id;
      var i :| 0 <= i < |items| && items[i] == x;
      var j :| 0 <= j < |items| && items[j] == y;
    }
  }

  /** The canonical list holds the first item of each id and nothing else. */
  lemma CanonicalHolds(items: seq<Item>)
    ensures forall x :: x in Canonical(items) <==> First(items, x.id) == Some(x)
    ensures DistinctIds(Canonical(items)) && SortedBy(Canonical(items), KeyLe)
  {
    FirstsAreFirst(items);
    KeyOrderIsTotal();
    SortPermutes(Firsts(items), KeyLe);
    SortSorts(Firsts(items), KeyLe);
    DistinctUnderPermutation(Firsts(items), Canonical(items));
  }

  lemma DistinctUnderPermutation(s: seq<Item>, t: seq<Item>)
    requires DistinctIds(s) && multiset(s) == multiset(t)
    ensures DistinctIds(t)
  {
    SameElements(s, t);
    forall i, j | 0 <= i < j < |t| ensures t[i].id != t[j].id {
      if t[i] == t[j] {
        assert t == t[..j] + [t[j]] + t[j + 1..];
        assert t[i] in t[..j];
        assert multiset(t)[t[i]] >= 2;
        AtMostOnce(s, t[i]);
      } else {
        var p :| 0 <= p < |s| && s[p] == t[i];
        var q :| 0 <= q < |s| && s[q] == t[j];
      }
    }
  }

  lemma AtMostOnce(s: seq<Item>, x: Item)
    requires DistinctIds(s)
    ensures multiset(s)[x] <= 1
  {
    if x in s {
      var i :| 0 <= i < |s| && s[i] == x;
      assert s == s[..i] + [x] + s[i + 1..];
      assert x !in s[..i] && x !in s[i + 1..];
    }
  }

  lemma DistinctSameMultiset(s: seq<Item>, t: seq<Item>)
    requires DistinctIds(s) && DistinctIds(t)
    requires forall x :: x in s <==> x in t
    ensures multiset(s) == multiset(t)
  {
    forall x ensures multiset(s)[x] == multiset(t)[x] {
      AtMostOnce(s, x);
      AtMostOnce(t, x);
      assert x in s <==> x in multiset(s);
      assert x in t <==> x in multiset(t);
    }
  }

  /** Two lists with the same first item for every id have the same canonical form. */
  lemma SameFirstsSameCanon(s: seq<Item>, t: seq<Item>)
    requires HasIds(s) && HasIds(t)
    requires forall id :: First(s, id) == First(t, id)
    ensures Canonical(s) == Canonical(t)
  {
    FirstsAreFirst(s);
    FirstsAreFirst(t);
    DistinctSameMultiset(Firsts(s), Firsts(t));
    KeyOrderIsTotal();
    FirstsHaveIds(s);
    DistinctIdsNeverTie(Firsts(s));
    SortIgnoresInputOrder(Firsts(s), Firsts(t), KeyLe);
  }

  lemma FirstsHaveIds(s: seq<Item>)
    requires HasIds(s)
    ensures HasIds(Firsts(s))
  {
    FirstsAreFirst(s);
    forall x | x in Firsts(s) ensures |x.id| == ID_LENGTH {
      FirstFinds(s, x.id);
    }
  }

  lemma CanonicalKeepsFirsts(items: seq<Item>, id: string)
    ensures First(Canonical(items), id) == First(items, id)
  {
    CanonicalHolds(items);
    FirstFinds(Canonical(items), id);
    FirstFinds(items, id);
    if First(items, id).Some? {
      assert First(items, id).value in Canonical(items);
      var x := First(Canonical(items), id).value;
      assert x in Canonical(items);
    }
  }

  lemma CanonicalHasIds(items: seq<Item>)
    requires HasIds(items)
    ensures HasIds(Canonical(items))
  {
    FirstsHaveIds(items);
    SortPermutes(Firsts(items), KeyLe);
  }

  // ---- the laws -----------------------------------------------------------------------------------

  /** Left-biased: a merge holds an id's first item, the existing one if there is any. */
  lemma {:induction false} MergeIsLeftBiased(a: seq<Item>, b: seq<Item>, x: Item)
    ensures x in Merge(a, b) <==> (First(a, x.id) == Some(x) || (First(a, x.id).None? && First(b, x.id) == Some(x)))
    ensures DistinctIds(Merge(a, b)) && SortedBy(Merge(a, b), KeyLe)
  {
    CanonicalHolds(a + b);
    FirstOfConcat(a, b, x.id);
  }

  lemma MergeIsAssociative(a: seq<Item>, b: seq<Item>, c: seq<Item>)
    requires HasIds(a) && HasIds(b) && HasIds(c)
    ensures Merge(Merge(a, b), c) == Merge(a, Merge(b, c))
  {
    CanonicalHasIds(a + b);
    CanonicalHasIds(b + c);
    forall id ensures First(Merge(a, b) + c, id) == First(a + Merge(b, c), id) {
      FirstOfConcat(Merge(a, b), c, id);
      FirstOfConcat(a, Merge(b, c), id);
      CanonicalKeepsFirsts(a + b, id);
      CanonicalKeepsFirsts(b + c, id);
      FirstOfConcat(a, b, id);
      FirstOfConcat(b, c, id);
    }
    SameFirstsSameCanon(Merge(a, b) + c, a + Merge(b, c));
  }

  /** Merging what is already there changes nothing. */
  lemma MergeIsIdempotent(a: seq<Item>, b: seq<Item>)
    requires HasIds(a) && HasIds(b)
    ensures Merge(Merge(a, b), b) == Merge(a, b)
    ensures Merge(Merge(a, b), a) == Merge(a, b)
    ensures Merge(Merge(a, b), Merge(a, b)) == Merge(a, b)
  {
    CanonicalHasIds(a + b);
    forall id
      ensures First(Merge(a, b) + b, id) == First(a + b, id)
      ensures First(Merge(a, b) + a, id) == First(a + b, id)
      ensures First(Merge(a, b) + Merge(a, b), id) == First(a + b, id)
    {
      CanonicalKeepsFirsts(a + b, id);
      FirstOfConcat(a, b, id);
      FirstOfConcat(Merge(a, b), b, id);
      FirstOfConcat(Merge(a, b), a, id);
      FirstOfConcat(Merge(a, b), Merge(a, b), id);
    }
    SameFirstsSameCanon(Merge(a, b) + b, a + b);
    SameFirstsSameCanon(Merge(a, b) + a, a + b);
    SameFirstsSameCanon(Merge(a, b) + Merge(a, b), a + b);
  }

  // ---- when order does not matter --------------------------------------------------------------------

  /** Nothing is reported exactly when every incoming item equals the last existing one under its id, if any. */
  lemma {:induction false} ConflictsAre(a: seq<Item>, b: seq<Item>)
    ensures Conflicts(a, b) == [] <==> forall y :: y in b ==> Last(a, y.id) in {None, Some(y)}
  {
    if b != [] {
      var front, last := b[..|b| - 1], b[|b| - 1];
      ConflictsAre(a, front);
      assert b == front + [last];
    }
  }

  lemma NoConflictIsAgreement(a: seq<Item>, b: seq<Item>)
    requires DistinctIds(a)
    ensures Conflicts(a, b) == [] <==> forall x, y :: x in a && y in b && x.id == y.id ==> x == y
  {
    ConflictsAre(a, b);
    forall y | y in b
      ensures Last(a, y.id) in {None, Some(y)} <==> forall x :: x in a && x.id == y.id ==> x == y
    {
      LastIsTheOne(a, y.id);
    }
  }

  lemma {:induction false} LastIsTheOne(a: seq<Item>, id: string)
    requires DistinctIds(a)
    ensures forall x :: x in a && x.id == id ==> Last(a, id) == Some(x)
    ensures Last(a, id).Some? ==> Last(a, id).value in a && Last(a, id).value.id == id
  {
    if a != [] {
      LastIsTheOne(a[..|a| - 1], id);
      assert a == a[..|a| - 1] + [a[|a| - 1]];
    }
  }

  /** Where both lists know an id, they know the same item first. */
  ghost predicate FirstsAgree(a: seq<Item>, b: seq<Item>) {
    forall id :: First(a, id).Some? && First(b, id).Some? ==> First(a, id) == First(b, id)
  }

  /** Any two lists merge the same both ways exactly when they agree on the first item of every shared id. */
  lemma CommutesExactly(a: seq<Item>, b: seq<Item>)
    requires HasIds(a) && HasIds(b)
    ensures Merge(a, b) == Merge(b, a) <==> FirstsAgree(a, b)
  {
    if FirstsAgree(a, b) {
      forall id ensures First(a + b, id) == First(b + a, id) {
        FirstOfConcat(a, b, id);
        FirstOfConcat(b, a, id);
      }
      SameFirstsSameCanon(a + b, b + a);
    } else {
      var id :| First(a, id).Some? && First(b, id).Some? && First(a, id) != First(b, id);
      FirstFinds(a, id);
      var x := First(a, id).value;
      MergeIsLeftBiased(a, b, x);
      MergeIsLeftBiased(b, a, x);
    }
  }

  /** For lists without duplicates that is exactly when no conflict is reported. */
  lemma {:induction false} CommutesExactlyWithoutConflict(a: seq<Item>, b: seq<Item>)
    requires HasIds(a) && HasIds(b) && DistinctIds(a) && DistinctIds(b)
    ensures Merge(a, b) == Merge(b, a) <==> Conflicts(a, b) == []
  {
    CommutesExactly(a, b);
    NoConflictIsAgreement(a, b);
    if Conflicts(a, b) == [] {
      forall id | First(a, id).Some? && First(b, id).Some? ensures First(a, id) == First(b, id) {
        FirstFinds(a, id);
        FirstFinds(b, id);
      }
    } else {
      var x, y :| x in a && y in b && x.id == y.id && x != y;
      FirstIsTheOne(a, x);
      FirstIsTheOne(b, y);
    }
  }

  lemma FirstIsTheOne(a: seq<Item>, x: Item)
    requires DistinctIds(a) && x in a
    ensures First(a, x.id) == Some(x)
  {
    FirstFinds(a, x.id);
    var y := First(a, x.id).value;
    var i :| 0 <= i < |a| && a[i] == x;
    var j :| 0 <= j < |a| && a[j] == y;
  }

  /** All updates folded into a state, one after the other. */
  function FoldUpdates(state: seq<Item>, updates: seq<seq<Item>>): seq<Item> {
    if updates == [] then state
    else Merge(FoldUpdates(state, updates[..|updates| - 1]), updates[|updates| - 1])
  }

  function Flatten(updates: seq<seq<Item>>): seq<Item> {
    if updates == [] then [] else Flatten(updates[..|updates| - 1]) + updates[|updates| - 1]
  }

  lemma {:induction false} FlattenHolds(updates: seq<seq<Item>>)
    ensures forall x :: x in Flatten(updates) <==> exists u :: u in updates && x in u
  {
    if updates != [] {
      FlattenHolds(updates[..|updates| - 1]);
      assert updates == updates[..|updates| - 1] + [updates[|updates| - 1]];
    }
  }

  /** Folding is merging once with everything, in the order it came. */
  lemma {:induction false} FoldIsOneMerge(state: seq<Item>, updates: seq<seq<Item>>, id: string)
    ensures First(FoldUpdates(state, updates), id) == First(state + Flatten(updates), id)
  {
    if updates == [] {
      assert state + [] == state;
    } else {
      var front, last := updates[..|updates| - 1], updates[|updates| - 1];
      FoldIsOneMerge(state, front, id);
      OneMoreMerge(FoldUpdates(state, front), state + Flatten(front), last, id);
      FlattenLast(state, updates);
    }
  }

  lemma {:induction false} FlattenLast(state: seq<Item>, updates: seq<seq<Item>>)
    requires updates != []
    ensures state + Flatten(updates) == state + Flatten(updates[..|updates| - 1]) + updates[|updates| - 1]
  {
  }

  lemma OneMoreMerge(before: seq<Item>, all: seq<Item>, last: seq<Item>, id: string)
    requires First(before, id) == First(all, id)
    ensures First(Merge(before, last), id) == First(all + last, id)
  {
    CanonicalKeepsFirsts(before + last, id);
    FirstOfConcat(before, last, id);
    FirstOfConcat(all, last, id);
  }

  ghost predicate ConflictFree(items: seq<Item>) {
    forall x, y :: x in items && y in items && x.id == y.id ==> x == y
  }

  lemma SameElementsSameFirsts(s: seq<Item>, t: seq<Item>, id: string)
    requires ConflictFree(s) && forall x :: x in s <==> x in t
    ensures First(s, id) == First(t, id)
  {
    FirstFinds(s, id);
    FirstFinds(t, id);
  }

  /**
   Convergence: without conflicting payloads, parallel updates folded in any order give the
   same state.
   */
  lemma {:induction false} AnyOrderConverges(state: seq<Item>, us: seq<seq<Item>>, vs: seq<seq<Item>>)
    requires multiset(us) == multiset(vs) && us != []
    requires HasIds(state + Flatten(us)) && ConflictFree(state + Flatten(us))
    ensures FoldUpdates(state, us) == FoldUpdates(state, vs)
  {
    SameElements(us, vs);
    FlattenHolds(us);
    FlattenHolds(vs);
    assert forall x :: x in state + Flatten(us) <==> x in state + Flatten(vs);
    FoldIsCanonical(state, us);
    FoldIsCanonical(state, vs);
    forall id ensures First(state + Flatten(us), id) == First(state + Flatten(vs), id) {
      SameElementsSameFirsts(state + Flatten(us), state + Flatten(vs), id);
    }
    SameFirstsSameCanon(state + Flatten(us), state + Flatten(vs));
  }

  lemma FoldIsCanonical(state: seq<Item>, us: seq<seq<Item>>)
    requires us != [] && HasIds(state + Flatten(us))
    ensures FoldUpdates(state, us) == Canonical(state + Flatten(us))
  {
    var front, last := us[..|us| - 1], us[|us| - 1];
    var items := FoldUpdates(state, front) + last;
    FoldHasIds(state, front, state + Flatten(us));
    forall id ensures First(items, id) == First(state + Flatten(us), id) {
      FoldIsOneMerge(state, us, id);
      CanonicalKeepsFirsts(items, id);
    }
    SameFirstsSameCanon(items, state + Flatten(us));
  }

  lemma {:induction false} FoldHasIds(state: seq<Item>, us: seq<seq<Item>>, all: seq<Item>)
    requires HasIds(all) && (forall x :: x in state + Flatten(us) ==> x in all)
    ensures HasIds(FoldUpdates(state, us))
  {
    if us != [] {
      var front, last := us[..|us| - 1], us[|us| - 1];
      FoldHasIds(state, front, all);
      CanonicalHasIds(FoldUpdates(state, front) + last);
    }
  }
}
