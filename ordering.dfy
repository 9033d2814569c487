/**
 * Strict total orders and the ascending enumeration of a finite set under
 * one. The line renderer's batch map (keyed by LineKey) and the text
 * renderer's colour map (keyed by glm::vec4 with a lexicographic comparator)
 * are both std::map, whose range-for visits the keys in ascending order; this
 * module is what both flushes use to say "in ascending key order".
 */
module Ordering {

  /** `less` is irreflexive, transitive and connected. */
  ghost predicate StrictTotal<T(!new)>(less: (T, T) -> bool)
  {
    && (forall x :: !less(x, x))
    && (forall x, y, z :: less(x, y) && less(y, z) ==> less(x, z))
    && (forall x, y :: x != y ==> less(x, y) || less(y, x))
  }

  /** `m` is the least element of `s`. */
  predicate IsLeast<T(==)>(less: (T, T) -> bool, m: T, s: set<T>)
  {
    m in s && forall x :: x in s && x != m ==> less(m, x)
  }

  /** Every non-empty finite set has a least element. */
  lemma {:induction false} LeastExists<T(!new)>(less: (T, T) -> bool, s: set<T>)
    requires StrictTotal(less)
    requires s != {}
    ensures exists m :: IsLeast(less, m, s)
    decreases s
  {
    var x :| x in s;
    if s == {x} {
      assert IsLeast(less, x, s);
    } else {
      LeastExists(less, s - {x});
      var m :| IsLeast(less, m, s - {x});
      if less(x, m) {
        forall y | y in s && y != x
          ensures less(x, y)
        {
          if y != m {
            assert less(m, y);
          }
        }
        assert IsLeast(less, x, s);
      } else {
        assert m != x && less(m, x);
        forall y | y in s && y != m
          ensures less(m, y)
        {
          if y != x {
            assert y in s - {x};
          }
        }
        assert IsLeast(less, m, s);
      }
    }
  }

  /** The least element is unique. */
  lemma LeastUnique<T(!new)>(less: (T, T) -> bool, m1: T, m2: T, s: set<T>)
    requires StrictTotal(less)
    requires IsLeast(less, m1, s) && IsLeast(less, m2, s)
    ensures m1 == m2
  {
  }

  ghost function Least<T(!new)>(less: (T, T) -> bool, s: set<T>): (m: T)
    requires StrictTotal(less)
    requires s != {}
    ensures IsLeast(less, m, s)
  {
    LeastExists(less, s);
    var m :| IsLeast(less, m, s); m
  }

  /** The elements of `s` listed in strictly ascending order. */
  ghost function Ascending<T(!new)>(less: (T, T) -> bool, s: set<T>): (r: seq<T>)
    requires StrictTotal(less)
    ensures |r| == |s|
    ensures forall x :: x in s <==> x in r
    decreases s
  {
    if s == {} then []
    else
      var m := Least(less, s);
      [m] + Ascending(less, s - {m})
  }

  /** The enumeration is strictly ascending. */
  lemma {:induction false} AscendingSorted<T(!new)>(less: (T, T) -> bool, s: set<T>)
    requires StrictTotal(less)
    ensures forall i, j :: 0 <= i < j < |Ascending(less, s)| ==> less(Ascending(less, s)[i], Ascending(less, s)[j])
    decreases s
  {
    if s != {} {
      var m := Least(less, s);
      var rest := Ascending(less, s - {m});
      AscendingSorted(less, s - {m});
      assert Ascending(less, s) == [m] + rest;
      forall x | x in rest
        ensures less(m, x)
      {
        assert x in s - {m};
      }
      ConsSorted(less, m, rest);
    }
  }

  /** An element below everything in a strictly ascending sequence extends it at the front. */
  lemma ConsSorted<T>(less: (T, T) -> bool, m: T, rest: seq<T>)
    requires forall x :: x in rest ==> less(m, x)
    requires forall i, j :: 0 <= i < j < |rest| ==> less(rest[i], rest[j])
    ensures forall i, j :: 0 <= i < j < |[m] + rest| ==> less(([m] + rest)[i], ([m] + rest)[j])
  {
    var r := [m] + rest;
    forall i, j | 0 <= i < j < |r|
      ensures less(r[i], r[j])
    {
      assert r[j] == rest[j - 1];
      if i == 0 {
        assert rest[j - 1] in rest;
      } else {
        assert r[i] == rest[i - 1];
      }
    }
  }

  /** Taking any least element first is exactly how `Ascending` proceeds. */
  lemma AscendingStep<T(!new)>(less: (T, T) -> bool, m: T, s: set<T>)
    requires StrictTotal(less)
    requires IsLeast(less, m, s)
    ensures Ascending(less, s) == [m] + Ascending(less, s - {m})
  {
    LeastUnique(less, m, Least(less, s), s);
  }
}
