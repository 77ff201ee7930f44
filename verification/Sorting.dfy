/**
 The stable sort of Python's `sorted` and `list.sort` and of SQL's `ORDER BY`, with the
 three facts every client needs: it permutes, it orders, and when no two elements tie its
 result depends only on the elements.
 */
module Sorting {

  ghost predicate TotalPreorder<T(!new)>(le: (T, T) -> bool) {
    && (forall x, y :: le(x, y) || le(y, x))
    && (forall x, y, z :: le(x, y) && le(y, z) ==> le(x, z))
  }

  ghost predicate SortedBy<T>(s: seq<T>, le: (T, T) -> bool) {
    forall i, j :: 0 <= i < j < |s| ==> le(s[i], s[j])
  }

  /** No two different elements of `s` tie. */
  ghost predicate TieFree<T>(s: seq<T>, le: (T, T) -> bool) {
    forall x, y :: x in s && y in s && le(x, y) && le(y, x) ==> x == y
  }

  /** Puts `x` behind every element that is not greater. */
  function Insert<T>(x: T, s: seq<T>, le: (T, T) -> bool): seq<T> {
    if s == [] then [x]
    else if le(s[|s| - 1], x) then s + [x]
    else Insert(x, s[..|s| - 1], le) + [s[|s| - 1]]
  }

  function Sort<T>(s: seq<T>, le: (T, T) -> bool): seq<T> {
    if s == [] then [] else Insert(s[|s| - 1], Sort(s[..|s| - 1], le), le)
  }

  lemma {:induction false} InsertPermutes<T>(x: T, s: seq<T>, le: (T, T) -> bool)
    ensures multiset(Insert(x, s, le)) == multiset(s) + multiset{x}
  {
    if s != [] {
      assert s == s[..|s| - 1] + [s[|s| - 1]];
      if !le(s[|s| - 1], x) {
        InsertPermutes(x, s[..|s| - 1], le);
      }
    }
  }

  lemma {:induction false} SortPermutes<T>(s: seq<T>, le: (T, T) -> bool)
    ensures multiset(Sort(s, le)) == multiset(s)
    ensures |Sort(s, le)| == |s|
    ensures forall x :: x in Sort(s, le) <==> x in s
  {
    if s != [] {
      var front := s[..|s| - 1];
      assert s == front + [s[|s| - 1]];
      SortPermutes(front, le);
      InsertPermutes(s[|s| - 1], Sort(front, le), le);
    }
    SameElements(Sort(s, le), s);
  }

  lemma SameElements<T>(s: seq<T>, t: seq<T>)
    requires multiset(s) == multiset(t)
    ensures |s| == |t|
    ensures forall x :: x in s <==> x in t
  {
    assert |multiset(s)| == |s| && |multiset(t)| == |t|;
    forall x ensures x in s <==> x in t {
      assert x in s <==> x in multiset(s);
      assert x in t <==> x in multiset(t);
    }
  }

  lemma {:induction false} InsertKeepsSorted<T(!new)>(x: T, s: seq<T>, le: (T, T) -> bool)
    requires TotalPreorder(le) && SortedBy(s, le)
    ensures SortedBy(Insert(x, s, le), le)
  {
    if s != [] {
      var last, front := s[|s| - 1], s[..|s| - 1];
      if le(last, x) {
        forall i | 0 <= i < |s| ensures le(s[i], x) {
          assert i == |s| - 1 || le(s[i], last);
        }
      } else {
        InsertKeepsSorted(x, front, le);
        var r := Insert(x, front, le);
        InsertPermutes(x, front, le);
        forall i | 0 <= i < |r| ensures le(r[i], last) {
          assert r[i] in multiset(r);
          assert r[i] in multiset(front) || r[i] == x;
          if r[i] != x {
            assert r[i] in front;
          }
        }
      }
    }
  }

  lemma {:induction false} SortSorts<T(!new)>(s: seq<T>, le: (T, T) -> bool)
    requires TotalPreorder(le)
    ensures SortedBy(Sort(s, le), le)
  {
    if s != [] {
      SortSorts(s[..|s| - 1], le);
      InsertKeepsSorted(s[|s| - 1], Sort(s[..|s| - 1], le), le);
    }
  }

  /** The elements that tie with `z`, in order. */
  function TiesWith<T>(s: seq<T>, z: T, le: (T, T) -> bool): seq<T> {
    if s == [] then []
    else
      var front, last := TiesWith(s[..|s| - 1], z, le), s[|s| - 1];
      if le(z, last) && le(last, z) then front + [last] else front
  }

  lemma TiesWithMore<T>(s: seq<T>, x: T, z: T, le: (T, T) -> bool)
    ensures TiesWith(s + [x], z, le) == TiesWith(s, z, le) + if le(z, x) && le(x, z) then [x] else []
  {
    assert (s + [x])[..|s|] == s;
  }

  lemma {:induction false} InsertIsStable<T(!new)>(x: T, s: seq<T>, z: T, le: (T, T) -> bool)
    requires TotalPreorder(le)
    ensures TiesWith(Insert(x, s, le), z, le) == TiesWith(s + [x], z, le)
  {
    TiesWithMore(s, x, z, le);
    if s != [] && !le(s[|s| - 1], x) {
      var front, last := s[..|s| - 1], s[|s| - 1];
      InsertIsStable(x, front, z, le);
      TiesWithMore(front, x, z, le);
      TiesWithMore(Insert(x, front, le), last, z, le);
    } else {
      assert s == [] ==> s + [x] == [x];
    }
  }

  /** Elements that tie stay in the order they came in. */
  lemma {:induction false} SortIsStable<T(!new)>(s: seq<T>, z: T, le: (T, T) -> bool)
    requires TotalPreorder(le)
    ensures TiesWith(Sort(s, le), z, le) == TiesWith(s, z, le)
  {
    if s != [] {
      var front, last := s[..|s| - 1], s[|s| - 1];
      SortIsStable(front, z, le);
      InsertIsStable(last, Sort(front, le), z, le);
      TiesWithMore(Sort(front, le), last, z, le);
    }
  }

  lemma SortedListingsEndAlike<T>(s: seq<T>, t: seq<T>, le: (T, T) -> bool)
    requires SortedBy(s, le) && SortedBy(t, le) && TieFree(s, le)
    requires |s| == |t| > 0 && forall x :: x in s <==> x in t
    ensures s[|s| - 1] == t[|s| - 1]
  {
    var n := |s| - 1;
    assert s[n] in t && t[n] in s;
    var i :| 0 <= i < |t| && t[i] == s[n];
    var j :| 0 <= j < |s| && s[j] == t[n];
    if i != n && j != n {
      assert le(t[i], t[n]) && le(s[j], s[n]);
    }
  }

  lemma WithoutLast<T>(s: seq<T>, le: (T, T) -> bool)
    requires s != [] && SortedBy(s, le)
    ensures s == s[..|s| - 1] + [s[|s| - 1]]
    ensures multiset(s[..|s| - 1]) == multiset(s) - multiset{s[|s| - 1]}
    ensures SortedBy(s[..|s| - 1], le)
    ensures TieFree(s, le) ==> TieFree(s[..|s| - 1], le)
  {
    assert s == s[..|s| - 1] + [s[|s| - 1]];
  }

  /** Two ordered listings of the same tie-free elements are the same listing. */
  lemma {:induction false} SortedListingIsUnique<T>(s: seq<T>, t: seq<T>, le: (T, T) -> bool)
    requires SortedBy(s, le) && SortedBy(t, le) && TieFree(s, le)
    requires multiset(s) == multiset(t)
    ensures s == t
    decreases |s|
  {
    SameElements(s, t);
    if s != [] {
      SortedListingsEndAlike(s, t, le);
      WithoutLast(s, le);
      WithoutLast(t, le);
      SortedListingIsUnique(s[..|s| - 1], t[..|t| - 1], le);
    }
  }

  /** Sorting forgets the order its input came in, as long as nothing ties. */
  lemma SortIgnoresInputOrder<T(!new)>(s: seq<T>, t: seq<T>, le: (T, T) -> bool)
    requires TotalPreorder(le) && TieFree(s, le)
    requires multiset(s) == multiset(t)
    ensures Sort(s, le) == Sort(t, le)
  {
    SortSorts(s, le);
    SortSorts(t, le);
    SortPermutes(s, le);
    SortPermutes(t, le);
    SortedListingIsUnique(Sort(s, le), Sort(t, le), le);
  }
}
