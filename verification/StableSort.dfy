/** Stable sorting, as `list.sort`, `sorted` and `ORDER BY` with a tie-breaking key do it.

    `IsStableSort` is the specification: sorted, and the elements of each class of equal keys are the same
    ones in the same order as before.  It determines the result (`Unique`), and `Sort` meets it. */
module StableSort {

  ghost predicate Preorder<T(!new)>(le: (T, T) -> bool) {
    && (forall x, y :: le(x, y) || le(y, x))
    && (forall x, y, z :: le(x, y) && le(y, z) ==> le(x, z))
  }

  ghost predicate Sorted<T(!new)>(s: seq<T>, le: (T, T) -> bool) {
    forall i, j :: 0 <= i < j < |s| ==> le(s[i], s[j])
  }

  function Filter<T(!new)>(s: seq<T>, p: T -> bool): seq<T> {
    if s == [] then []
    else if p(s[|s| - 1]) then Filter(s[..|s| - 1], p) + [s[|s| - 1]]
    else Filter(s[..|s| - 1], p)
  }

  lemma {:induction false} FilterMembers<T(!new)>(s: seq<T>, p: T -> bool)
    ensures forall x :: x in Filter(s, p) <==> x in s && p(x)
  {
    if s == [] {
    } else {
      FilterMembers(s[..|s| - 1], p);
      assert forall x :: x in s <==> x in s[..|s| - 1] || x == s[|s| - 1];
    }
  }

  /** The elements whose key equals that of `x`, in order. */
  function Class<T(!new)>(s: seq<T>, le: (T, T) -> bool, x: T): seq<T> { Filter(s, y => le(x, y) && le(y, x)) }

  ghost predicate IsStableSort<T(!new)>(s: seq<T>, r: seq<T>, le: (T, T) -> bool) {
    Sorted(r, le) && forall x :: Class(r, le, x) == Class(s, le, x)
  }

  function Insert<T(!new)>(s: seq<T>, x: T, le: (T, T) -> bool): seq<T> {
    if s == [] || le(s[|s| - 1], x) then s + [x] else Insert(s[..|s| - 1], x, le) + [s[|s| - 1]]
  }

  function Sort<T(!new)>(s: seq<T>, le: (T, T) -> bool): seq<T> {
    if s == [] then [] else Insert(Sort(s[..|s| - 1], le), s[|s| - 1], le)
  }

  lemma SortAppend<T(!new)>(s: seq<T>, x: T, le: (T, T) -> bool)
    ensures Sort(s + [x], le) == Insert(Sort(s, le), x, le)
  {
  }

  lemma {:induction false} InsertMultiset<T(!new)>(s: seq<T>, x: T, le: (T, T) -> bool)
    ensures multiset(Insert(s, x, le)) == multiset(s) + multiset{x}
  {
    if s == [] || le(s[|s| - 1], x) {
    } else {
      InsertMultiset(s[..|s| - 1], x, le);
      assert s == s[..|s| - 1] + [s[|s| - 1]];
    }
  }

  lemma {:induction false} SortMultiset<T(!new)>(s: seq<T>, le: (T, T) -> bool)
    ensures multiset(Sort(s, le)) == multiset(s)
  {
    if s == [] {
    } else {
      SortMultiset(s[..|s| - 1], le);
      InsertMultiset(Sort(s[..|s| - 1], le), s[|s| - 1], le);
      assert s == s[..|s| - 1] + [s[|s| - 1]];
    }
  }

  lemma SortMembers<T(!new)>(s: seq<T>, le: (T, T) -> bool)
    ensures |Sort(s, le)| == |s|
    ensures forall x :: x in Sort(s, le) <==> x in s
  {
    SortMultiset(s, le);
    assert |multiset(Sort(s, le))| == |multiset(s)|;
    assert forall x :: x in Sort(s, le) <==> x in multiset(Sort(s, le));
    assert forall x :: x in s <==> x in multiset(s);
  }

  lemma {:induction false} InsertSorted<T(!new)>(s: seq<T>, x: T, le: (T, T) -> bool)
    requires Preorder(le) && Sorted(s, le)
    ensures Sorted(Insert(s, x, le), le)
    ensures forall y :: y in Insert(s, x, le) <==> y in s || y == x
  {
    if s == [] || le(s[|s| - 1], x) {
    } else {
      var n := |s| - 1;
      InsertSorted(s[..n], x, le);
      var r := Insert(s[..n], x, le);
      forall y | y in r
        ensures le(y, s[n])
      {
      }
      forall i, j | 0 <= i < j < |r| + 1
        ensures le((r + [s[n]])[i], (r + [s[n]])[j])
      {
        if j == |r| {
          assert r[i] in r;
        }
      }
      assert forall y :: y in s <==> y in s[..n] || y == s[n];
    }
  }

  lemma {:induction false} SortSorted<T(!new)>(s: seq<T>, le: (T, T) -> bool)
    requires Preorder(le)
    ensures Sorted(Sort(s, le), le)
  {
    if s == [] {
    } else {
      SortSorted(s[..|s| - 1], le);
      InsertSorted(Sort(s[..|s| - 1], le), s[|s| - 1], le);
    }
  }

  lemma {:induction false} SortOfSorted<T(!new)>(s: seq<T>, le: (T, T) -> bool)
    requires Sorted(s, le)
    ensures Sort(s, le) == s
  {
    if s == [] {
    } else {
      var n := |s| - 1;
      SortOfSorted(s[..n], le);
      assert s == s[..n] + [s[n]];
    }
  }

  lemma FilterAppend<T(!new)>(s: seq<T>, x: T, p: T -> bool)
    ensures Filter(s + [x], p) == if p(x) then Filter(s, p) + [x] else Filter(s, p)
  {
  }

  lemma {:induction false} FilterInsert<T(!new)>(s: seq<T>, x: T, p: T -> bool, le: (T, T) -> bool)
    requires Preorder(le) && Sorted(s, le)
    ensures Filter(Insert(s, x, le), p) == if p(x) then Insert(Filter(s, p), x, le) else Filter(s, p)
  {
    if s == [] || le(s[|s| - 1], x) {
      FilterAppend(s, x, p);
      if s != [] { AllBelow(s, x, le); }
      LastOfFilter(s, x, p, le);
    } else {
      var n := |s| - 1;
      FilterInsert(s[..n], x, p, le);
      FilterAppend(Insert(s[..n], x, le), s[n], p);
      var f := Filter(s[..n], p);
      assert (f + [s[n]])[..|f|] == f;
    }
  }

  lemma LastOfFilter<T(!new)>(s: seq<T>, x: T, p: T -> bool, le: (T, T) -> bool)
    requires forall y :: y in s ==> le(y, x)
    ensures Insert(Filter(s, p), x, le) == Filter(s, p) + [x]
  {
  }

  lemma AllBelow<T(!new)>(s: seq<T>, x: T, le: (T, T) -> bool)
    requires Preorder(le) && Sorted(s, le) && s != [] && le(s[|s| - 1], x)
    ensures forall y :: y in s ==> le(y, x)
  {
  }

  /** Sorting and filtering may be done in either order. */
  lemma {:induction false} SortFilter<T(!new)>(s: seq<T>, p: T -> bool, le: (T, T) -> bool)
    requires Preorder(le)
    ensures Sort(Filter(s, p), le) == Filter(Sort(s, le), p)
  {
    if s == [] {
    } else {
      var n := |s| - 1;
      SortFilter(s[..n], p, le);
      SortSorted(s[..n], le);
      FilterInsert(Sort(s[..n], le), s[n], p, le);
      if p(s[n]) {
        SortAppend(Filter(s[..n], p), s[n], le);
      }
    }
  }

  /** `Sort` is a stable sort. */
  lemma SortIsStable<T(!new)>(s: seq<T>, le: (T, T) -> bool)
    requires Preorder(le)
    ensures IsStableSort(s, Sort(s, le), le)
  {
    SortSorted(s, le);
    forall x
      ensures Class(Sort(s, le), le, x) == Class(s, le, x)
    {
      ClassKept(s, le, x);
    }
  }

  lemma ClassKept<T(!new)>(s: seq<T>, le: (T, T) -> bool, x: T)
    requires Preorder(le)
    ensures Class(Sort(s, le), le, x) == Class(s, le, x)
  {
    var p := y => le(x, y) && le(y, x);
    SortFilter(s, p, le);
    var c := Filter(s, p);
    FilterMembers(s, p);
    forall i, j | 0 <= i < j < |c|
      ensures le(c[i], c[j])
    {
      assert c[i] in c && c[j] in c;
    }
    SortOfSorted(c, le);
    FilterSame(s, p, y => le(x, y) && le(y, x));
    FilterSame(Sort(s, le), p, y => le(x, y) && le(y, x));
  }

  lemma {:induction false} FilterSame<T(!new)>(s: seq<T>, p: T -> bool, q: T -> bool)
    requires forall x :: x in s ==> p(x) == q(x)
    ensures Filter(s, p) == Filter(s, q)
  {
    if s == [] {
    } else {
      assert forall x :: x in s[..|s| - 1] ==> x in s;
      FilterSame(s[..|s| - 1], p, q);
    }
  }

  lemma ClassFront<T(!new)>(s: seq<T>, le: (T, T) -> bool, x: T)
    requires s != []
    ensures var last := s[|s| - 1];
            Class(s, le, x) == Class(s[..|s| - 1], le, x) + if le(x, last) && le(last, x) then [last] else []
  {
  }

  lemma InOwnClass<T(!new)>(s: seq<T>, le: (T, T) -> bool, x: T)
    requires Preorder(le)
    ensures x in Class(s, le, x) <==> x in s
  {
    FilterMembers(s, y => le(x, y) && le(y, x));
    FilterSame(s, y => le(x, y) && le(y, x), y => le(x, y) && le(y, x));
    assert le(x, x);
  }

  lemma OwnClass<T(!new)>(s: seq<T>, le: (T, T) -> bool)
    requires Preorder(le)
    ensures s == [] || Class(s, le, s[0]) != []
  {
    if s != [] {
      InOwnClass(s, le, s[0]);
    }
  }

  lemma NoClass<T(!new)>(r: seq<T>, t: seq<T>, le: (T, T) -> bool)
    requires Preorder(le) && r == [] && forall x :: Class(r, le, x) == Class(t, le, x)
    ensures t == []
  {
    OwnClass(t, le);
  }

  lemma FrontClasses<T(!new)>(r: seq<T>, t: seq<T>, le: (T, T) -> bool, x: T)
    requires r != [] && t != [] && r[|r| - 1] == t[|t| - 1] && Class(r, le, x) == Class(t, le, x)
    ensures Class(r[..|r| - 1], le, x) == Class(t[..|t| - 1], le, x)
  {
    var a, b, last := Class(r[..|r| - 1], le, x), Class(t[..|t| - 1], le, x), r[|r| - 1];
    ClassFront(r, le, x);
    ClassFront(t, le, x);
    if le(x, last) && le(last, x) {
      assert a == (a + [last])[..|a|] && b == (b + [last])[..|b|];
    }
  }

  /** There is only one stable sort of a list. */
  lemma {:induction false} Unique<T(!new)>(r: seq<T>, t: seq<T>, le: (T, T) -> bool)
    requires Preorder(le) && Sorted(r, le) && Sorted(t, le)
    requires forall x :: Class(r, le, x) == Class(t, le, x)
    ensures r == t
  {
    if r == [] {
      NoClass(r, t, le);
    } else if t == [] {
      NoClass(t, r, le);
    } else {
      var m, n := |r| - 1, |t| - 1;
      LastsEqual(r, t, le);
      forall x
        ensures Class(r[..m], le, x) == Class(t[..n], le, x)
      {
        assert Class(r, le, x) == Class(t, le, x);
        FrontClasses(r, t, le, x);
      }
      Unique(r[..m], t[..n], le);
      assert r == r[..m] + [r[m]] && t == t[..n] + [t[n]];
    }
  }

  lemma SameMember<T(!new)>(r: seq<T>, t: seq<T>, le: (T, T) -> bool, x: T)
    requires Preorder(le) && x in r && Class(r, le, x) == Class(t, le, x)
    ensures x in t && le(x, x)
  {
    InOwnClass(r, le, x);
    InOwnClass(t, le, x);
  }

  lemma BelowLast<T(!new)>(s: seq<T>, le: (T, T) -> bool, x: T)
    requires Sorted(s, le) && x in s && le(x, x)
    ensures le(x, s[|s| - 1])
  {
  }

  lemma LastsEqual<T(!new)>(r: seq<T>, t: seq<T>, le: (T, T) -> bool)
    requires Preorder(le) && Sorted(r, le) && Sorted(t, le) && r != [] && t != []
    requires forall x :: Class(r, le, x) == Class(t, le, x)
    ensures r[|r| - 1] == t[|t| - 1]
  {
    var a, b := r[|r| - 1], t[|t| - 1];
    SameMember(t, r, le, b);
    SameMember(r, t, le, a);
    BelowLast(r, le, b);
    BelowLast(t, le, a);
    ClassFront(r, le, a);
    ClassFront(t, le, a);
    var c := Class(r, le, a);
    assert c == Class(t, le, a);
    assert c[|c| - 1] == a && c[|c| - 1] == b;
  }

  // ---------------------------------------------------------------------------
  // Distinct keys.
  // ---------------------------------------------------------------------------

  ghost predicate DistinctBy<T(!new), K(!new)>(s: seq<T>, key: T -> K) {
    forall i, j :: 0 <= i < j < |s| ==> key(s[i]) != key(s[j])
  }

  lemma InsertMembers<T(!new)>(s: seq<T>, x: T, le: (T, T) -> bool)
    ensures forall y :: y in Insert(s, x, le) <==> y in s || y == x
  {
  }

  lemma NotTheLast<T(!new), K(!new)>(s: seq<T>, key: T -> K)
    requires s != [] && DistinctBy(s, key)
    ensures forall y :: y in s[..|s| - 1] ==> key(y) != key(s[|s| - 1])
  {
  }

  lemma AppendDistinct<T(!new), K(!new)>(s: seq<T>, x: T, key: T -> K)
    requires DistinctBy(s, key) && forall y :: y in s ==> key(y) != key(x)
    ensures DistinctBy(s + [x], key)
  {
  }

  lemma {:induction false} InsertDistinct<T(!new), K(!new)>(s: seq<T>, x: T, le: (T, T) -> bool, key: T -> K)
    requires DistinctBy(s, key) && forall y :: y in s ==> key(y) != key(x)
    ensures DistinctBy(Insert(s, x, le), key)
  {
    if s == [] || le(s[|s| - 1], x) {
      AppendDistinct(s, x, key);
    } else {
      var n := |s| - 1;
      assert s[n] in s && forall y :: y in s[..n] ==> y in s;
      InsertDistinct(s[..n], x, le, key);
      InsertMembers(s[..n], x, le);
      NotTheLast(s, key);
      AppendDistinct(Insert(s[..n], x, le), s[n], key);
    }
  }

  /** Sorting keeps keys distinct. */
  lemma {:induction false} SortDistinct<T(!new), K(!new)>(s: seq<T>, le: (T, T) -> bool, key: T -> K)
    requires DistinctBy(s, key)
    ensures DistinctBy(Sort(s, le), key)
  {
    if s == [] {
    } else {
      var n := |s| - 1;
      SortDistinct(s[..n], le, key);
      SortMembers(s[..n], le);
      NotTheLast(s, key);
      InsertDistinct(Sort(s[..n], le), s[n], le, key);
    }
  }
}
