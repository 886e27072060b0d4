/** `Array.prototype.filter`: keep, in order, the elements a predicate accepts. */
module Seqs {

  function Filter<T(!new)>(p: T -> bool, s: seq<T>): (r: seq<T>)
    ensures |r| <= |s|
    ensures forall i :: 0 <= i < |r| ==> p(r[i])
  {
    if s == [] then []
    else
      var init := Filter(p, s[..|s| - 1]);
      var last := s[|s| - 1];
      assert s == s[..|s| - 1] + [last];
      if p(last) then init + [last] else init
  }

  /** An element survives the filter exactly when it is in the input and accepted. */
  lemma FilterMembers<T(!new)>(p: T -> bool, s: seq<T>, x: T)
    ensures x in Filter(p, s) <==> x in s && p(x)
  {
    FilterCount(p, s, x);
    assert x in Filter(p, s) <==> multiset(Filter(p, s))[x] > 0;
    assert x in s <==> multiset(s)[x] > 0;
  }

  /** A filter keeps every copy of an accepted element and no copy of a rejected one. */
  lemma {:induction false} FilterCount<T(!new)>(p: T -> bool, s: seq<T>, x: T)
    ensures multiset(Filter(p, s))[x] == if p(x) then multiset(s)[x] else 0
  {
    if s != [] {
      var init, last := s[..|s| - 1], s[|s| - 1];
      assert s == init + [last];
      FilterCount(p, init, x);
    }
  }

  /** Filtering a concatenation filters each part. */
  lemma {:induction false} FilterAppend<T(!new)>(p: T -> bool, a: seq<T>, b: seq<T>)
    ensures Filter(p, a + b) == Filter(p, a) + Filter(p, b)
  {
    if b != [] {
      var ab, init, x := a + b, b[..|b| - 1], b[|b| - 1];
      assert ab[..|ab| - 1] == a + init;
      assert ab[|ab| - 1] == x;
      FilterAppend(p, a, init);
      var tail := if p(x) then [x] else [];
      assert Filter(p, ab) == Filter(p, a + init) + tail;
      assert Filter(p, b) == Filter(p, init) + tail;
    } else {
      assert a + b == a;
    }
  }

  /** A filter keeps a single element exactly when the predicate accepts it. */
  lemma FilterSingleton<T(!new)>(p: T -> bool, x: T)
    ensures Filter(p, [x]) == if p(x) then [x] else []
  {
    assert [x][..0] == [];
  }

  /** A non-empty sequence is its prefix followed by its last element. */
  lemma SplitLast<T>(s: seq<T>)
    requires s != []
    ensures s == s[..|s| - 1] + [s[|s| - 1]]
  {
  }

  /**
   * If `front` filters like `init` followed by `x`, and the predicate does not
   * accept both `x` and `last`, then moving `last` from after `x` to before it
   * leaves the filtered sequence unchanged.
   */
  lemma FilterMoveLast<T(!new)>(p: T -> bool, front: seq<T>, init: seq<T>, last: T, x: T)
    requires Filter(p, front) == Filter(p, init) + Filter(p, [x])
    requires !(p(x) && p(last))
    ensures Filter(p, front + [last]) == Filter(p, init + [last]) + Filter(p, [x])
  {
    FilterAppend(p, front, [last]);
    FilterAppend(p, init, [last]);
    FilterSingleton(p, x);
    FilterSingleton(p, last);
  }

  /** A filter that accepts everything returns its input. */
  lemma {:induction false} FilterAll<T(!new)>(p: T -> bool, s: seq<T>)
    requires forall i :: 0 <= i < |s| ==> p(s[i])
    ensures Filter(p, s) == s
  {
    if s != [] {
      FilterAll(p, s[..|s| - 1]);
    }
  }
}
