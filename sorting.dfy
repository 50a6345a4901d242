/** Python's `sorted`/`list.sort` (stable) and SQL `ORDER BY`, modelled as a stable insertion
    sort over a "less than" comparator. A descending sort (`reverse=True`) is the same sort
    with the comparator flipped: Python keeps equal keys in input order either way. */
module Sorting {
  import opened Seqs

  /** `lt` is a strict weak order: irreflexive, transitive, and its incomparability is
      transitive (stated as: `a < b` implies `c` is above `a` or below `b`). */
  ghost predicate StrictWeakOrder<T(!new)>(lt: (T, T) -> bool) {
    && (forall a :: !lt(a, a))
    && (forall a, b, c :: lt(a, b) && lt(b, c) ==> lt(a, c))
    && (forall a, b, c :: lt(a, b) ==> lt(a, c) || lt(c, b))
  }

  /** No element is strictly less than an element before it. */
  ghost predicate Sorted<T>(s: seq<T>, lt: (T, T) -> bool) {
    forall i, j :: 0 <= i < j < |s| ==> !lt(s[j], s[i])
  }

  /** The position of `x` among the sorted `s`: after every element it is not less than, so that
      it follows the elements equal to it. */
  function InsertPos<T>(s: seq<T>, x: T, lt: (T, T) -> bool): (k: nat)
    ensures k <= |s|
    ensures forall i :: 0 <= i < k ==> !lt(x, s[i])
    ensures k < |s| ==> lt(x, s[k])
  {
    if s == [] then 0
    else if lt(x, s[0]) then 0
    else 1 + InsertPos(s[1..], x, lt)
  }

  function Insert<T>(s: seq<T>, x: T, lt: (T, T) -> bool): (r: seq<T>)
    ensures |r| == |s| + 1
  {
    var k := InsertPos(s, x, lt);
    s[..k] + [x] + s[k..]
  }

  /** Stable sort of `s` by `lt`. */
  function SortBy<T>(s: seq<T>, lt: (T, T) -> bool): (r: seq<T>)
    ensures |r| == |s|
  {
    if s == [] then [] else Insert(SortBy(s[..|s| - 1], lt), s[|s| - 1], lt)
  }

  lemma InsertSorted<T(!new)>(s: seq<T>, x: T, lt: (T, T) -> bool)
    requires StrictWeakOrder(lt)
    requires Sorted(s, lt)
    ensures Sorted(Insert(s, x, lt), lt)
  {
    var k := InsertPos(s, x, lt);
    var r := Insert(s, x, lt);
    assert r == s[..k] + [x] + s[k..];
    forall i, j | 0 <= i < j < |r|
      ensures !lt(r[j], r[i])
    {
      if j < k {
        assert r[i] == s[i] && r[j] == s[j];
      } else if j == k {
        assert r[j] == x && r[i] == s[i];
      } else if i == k {
        assert r[i] == x && r[j] == s[j - 1];
      } else if i < k {
        assert r[i] == s[i] && r[j] == s[j - 1];
      } else {
        assert r[i] == s[i - 1] && r[j] == s[j - 1];
      }
    }
  }

  lemma {:induction false} SortBySorted<T(!new)>(s: seq<T>, lt: (T, T) -> bool)
    requires StrictWeakOrder(lt)
    ensures Sorted(SortBy(s, lt), lt)
  {
    if s != [] {
      SortBySorted(s[..|s| - 1], lt);
      InsertSorted(SortBy(s[..|s| - 1], lt), s[|s| - 1], lt);
    }
  }

  /** Inserting adds exactly the inserted element. */
  lemma InsertPermutes<T>(s: seq<T>, x: T, lt: (T, T) -> bool)
    ensures multiset(Insert(s, x, lt)) == multiset(s) + multiset{x}
  {
    var k := InsertPos(s, x, lt);
    assert s == s[..k] + s[k..];
  }

  lemma {:induction false} SortByPermutation<T>(s: seq<T>, lt: (T, T) -> bool)
    ensures multiset(SortBy(s, lt)) == multiset(s)
  {
    if s != [] {
      var init := s[..|s| - 1];
      SortByPermutation(init, lt);
      var t := SortBy(init, lt);
      InsertPermutes(t, s[|s| - 1], lt);
      assert s == init + [s[|s| - 1]];
    }
  }

  /** In a sorted sequence, everything from the insertion point of `x` on is above `x`. */
  lemma AboveInsertPos<T(!new)>(s: seq<T>, x: T, lt: (T, T) -> bool)
    requires StrictWeakOrder(lt)
    requires Sorted(s, lt)
    ensures forall m :: InsertPos(s, x, lt) <= m < |s| ==> lt(x, s[m])
  {
    var k := InsertPos(s, x, lt);
    forall m | k < m < |s|
      ensures lt(x, s[m])
    {
      assert !lt(s[m], s[k]);
      assert lt(s[m], s[k]) || lt(x, s[m]);
    }
  }

  /** Inserting `x` where no element of its class follows appends it to the class's
      subsequence. */
  lemma InsertStable<T(!new)>(s: seq<T>, k: nat, x: T, p: T -> bool)
    requires k <= |s|
    requires Filter(s[k..], p) == []
    requires p(x)
    ensures Filter(s[..k] + [x] + s[k..], p) == Filter(s, p) + [x]
  {
    FilterSplice(s, k, x, p);
    var front := Filter(s[..k], p);
    assert Filter([x], p) == [x];
    assert Filter(s, p) == front + [];
    assert Filter(s[..k] + [x] + s[k..], p) == front + [x] + [];
  }

  /** Inserting an element outside the class leaves the class's subsequence unchanged. */
  lemma InsertOther<T(!new)>(s: seq<T>, x: T, lt: (T, T) -> bool, p: T -> bool)
    requires !p(x)
    ensures Filter(Insert(s, x, lt), p) == Filter(s, p)
  {
    FilterSplice(s, InsertPos(s, x, lt), x, p);
    assert Filter([x], p) == [];
  }

  /** Stability: elements that compare equal to each other keep their input order. */
  lemma {:induction false} SortByStable<T(!new)>(s: seq<T>, lt: (T, T) -> bool, p: T -> bool)
    requires StrictWeakOrder(lt)
    requires forall a, b :: p(a) && p(b) ==> !lt(a, b)
    ensures Filter(SortBy(s, lt), p) == Filter(s, p)
  {
    if s != [] {
      var init := s[..|s| - 1];
      var x := s[|s| - 1];
      SortByStable(init, lt, p);
      assert s == init + [x];
      FilterConcat(init, [x], p);
      if p(x) {
        SortBySorted(init, lt);
        var sorted := SortBy(init, lt);
        var k := InsertPos(sorted, x, lt);
        AboveInsertPos(sorted, x, lt);
        assert forall m :: k <= m < |sorted| ==> !p(sorted[m]);
        FilterNoneFrom(sorted, k, p);
        InsertStable(sorted, k, x, p);
      } else {
        InsertOther(SortBy(init, lt), x, lt, p);
      }
    }
  }

  /** Sorting keeps exactly the elements it is given. */
  lemma SortByMembers<T>(s: seq<T>, lt: (T, T) -> bool, x: T)
    ensures x in SortBy(s, lt) <==> x in s
  {
    SortByPermutation(s, lt);
    assert x in SortBy(s, lt) <==> x in multiset(SortBy(s, lt));
  }

  /** The first element of a sort is one that nothing is below. */
  lemma SortByHeadIsLeast<T(!new)>(s: seq<T>, lt: (T, T) -> bool)
    requires StrictWeakOrder(lt)
    requires s != []
    ensures SortBy(s, lt)[0] in s
    ensures forall x :: x in s ==> !lt(x, SortBy(s, lt)[0])
  {
    var r := SortBy(s, lt);
    SortBySorted(s, lt);
    SortByMembers(s, lt, r[0]);
    forall x | x in s
      ensures !lt(x, r[0])
    {
      SortByMembers(s, lt, x);
      var j :| 0 <= j < |r| && r[j] == x;
      if j > 0 {
        assert !lt(r[j], r[0]);
      }
    }
  }
}
