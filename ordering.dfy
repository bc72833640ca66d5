/**
 * Strict total orders and the sorted listing of a finite set.
 *
 * IndexedDB hands out the records of a store or an index in key order; this
 * module gives that order a definition the rest of the model can use.
 */
module Ordering {

  /** `lt` is irreflexive, transitive and total: two distinct values are always comparable. */
  ghost predicate StrictTotalOrder<T(!new)>(lt: (T, T) -> bool)
  {
    && (forall a :: !lt(a, a))
    && (forall a, b, c :: lt(a, b) && lt(b, c) ==> lt(a, c))
    && (forall a, b :: a == b || lt(a, b) || lt(b, a))
  }

  /** Every element of `xs` comes strictly before every later one. */
  predicate Sorted<T>(xs: seq<T>, lt: (T, T) -> bool)
  {
    forall i, j :: 0 <= i < j < |xs| ==> lt(xs[i], xs[j])
  }

  /** `m` is the element of `s` that comes before all the others. */
  predicate IsLeast<T>(m: T, s: set<T>, lt: (T, T) -> bool)
  {
    m in s && forall x :: x in s && x != m ==> lt(m, x)
  }

  /** A non-empty finite set has a least element. */
  lemma {:induction false} LeastExists<T(!new)>(s: set<T>, lt: (T, T) -> bool)
    requires s != {}
    requires StrictTotalOrder(lt)
    ensures exists m :: IsLeast(m, s, lt)
    decreases |s|
  {
    var x :| x in s;
    if s == {x} {
      assert IsLeast(x, s, lt);
    } else {
      var rest := s - {x};
      LeastExists(rest, lt);
      var m :| IsLeast(m, rest, lt);
      if lt(x, m) {
        forall y | y in s && y != x
          ensures lt(x, y)
        {
          if y != m {
            assert lt(m, y);
          }
        }
        assert IsLeast(x, s, lt);
      } else {
        assert IsLeast(m, s, lt);
      }
    }
  }

  /** A set has at most one least element. */
  lemma LeastUnique<T(!new)>(s: set<T>, lt: (T, T) -> bool)
    requires StrictTotalOrder(lt)
    ensures forall m, n :: IsLeast(m, s, lt) && IsLeast(n, s, lt) ==> m == n
  {
  }

  /**
   * The elements of `s`, each exactly once, in ascending order: the order in
   * which a store or an index lists its keys.
   */
  function SortSet<T(==,!new)>(s: set<T>, lt: (T, T) -> bool): (r: seq<T>)
    requires StrictTotalOrder(lt)
    ensures |r| == |s|
    ensures forall x :: x in r <==> x in s
    ensures Sorted(r, lt)
    decreases |s|
  {
    if s == {} then []
    else
      LeastExists(s, lt);
      LeastUnique(s, lt);
      var m :| m in s && IsLeast(m, s, lt);
      [m] + SortSet(s - {m}, lt)
  }
}
