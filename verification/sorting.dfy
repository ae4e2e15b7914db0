/**
 * Python's `list.sort(key=..., reverse=True)`: a stable sort into
 * descending key order. The order is given as `ge(a, b)`, "the key of `a`
 * is at least that of `b`", which must be a total preorder.
 */
module Sorting {

  /** `ge` compares any two elements and is transitive. */
  ghost predicate TotalPreorder<T(!new)>(ge: (T, T) -> bool) {
    && (forall a, b :: ge(a, b) || ge(b, a))
    && (forall a, b, c :: ge(a, b) && ge(b, c) ==> ge(a, c))
  }

  /** Keys never increase from left to right. */
  predicate SortedBy<T>(s: seq<T>, ge: (T, T) -> bool) {
    forall i, j :: 0 <= i < j < |s| ==> ge(s[i], s[j])
  }

  /** Places `x` before the first element whose key is not larger, so earlier equal keys stay first. */
  function Insert<T(!new)>(x: T, s: seq<T>, ge: (T, T) -> bool): (r: seq<T>)
    requires TotalPreorder(ge) && SortedBy(s, ge)
    ensures |r| == |s| + 1
    ensures r[0] == x || (|s| > 0 && r[0] == s[0])
    ensures SortedBy(r, ge)
    ensures multiset(r) == multiset(s) + multiset{x}
  {
    if |s| == 0 then [x]
    else if ge(x, s[0]) then [x] + s
    else
      var rest := Insert(x, s[1..], ge);
      assert s == [s[0]] + s[1..];
      [s[0]] + rest
  }

  /** The sorted permutation, built by inserting from the back. */
  function SortBy<T(!new)>(s: seq<T>, ge: (T, T) -> bool): (r: seq<T>)
    requires TotalPreorder(ge)
    ensures SortedBy(r, ge)
    ensures multiset(r) == multiset(s)
    ensures |r| == |s|
  {
    if |s| == 0 then []
    else
      assert s == [s[0]] + s[1..];
      Insert(s[0], SortBy(s[1..], ge), ge)
  }

  /** Sorting a list that is already in descending order changes nothing. */
  lemma {:induction false} SortOfSorted<T(!new)>(s: seq<T>, ge: (T, T) -> bool)
    requires TotalPreorder(ge) && SortedBy(s, ge)
    ensures SortBy(s, ge) == s
  {
    if |s| > 0 {
      assert SortedBy(s[1..], ge);
      SortOfSorted(s[1..], ge);
      if |s| > 1 {
        assert ge(s[0], s[1]);
      }
      assert s == [s[0]] + s[1..];
    }
  }

  /** The elements of `s` whose key ties with that of `x`, in their order in `s`. */
  function Ties<T>(s: seq<T>, x: T, ge: (T, T) -> bool): (r: seq<T>)
    ensures |r| <= |s|
  {
    if |s| == 0 then []
    else (if ge(s[0], x) && ge(x, s[0]) then [s[0]] else []) + Ties(s[1..], x, ge)
  }

  /** Inserting `y` puts it in front of every element whose key ties with it, and moves no tied element. */
  lemma {:induction false} InsertTies<T(!new)>(y: T, t: seq<T>, x: T, ge: (T, T) -> bool)
    requires TotalPreorder(ge) && SortedBy(t, ge)
    ensures Ties(Insert(y, t, ge), x, ge)
         == (if ge(y, x) && ge(x, y) then [y] + Ties(t, x, ge) else Ties(t, x, ge))
  {
    if |t| == 0 {
    } else if ge(y, t[0]) {
      assert ([y] + t)[1..] == t;
    } else {
      assert SortedBy(t[1..], ge);
      InsertTies(y, t[1..], x, ge);
      var r := Insert(y, t, ge);
      assert r == [t[0]] + Insert(y, t[1..], ge);
      assert r[1..] == Insert(y, t[1..], ge);
      if ge(y, x) && ge(x, y) {
        assert !(ge(t[0], x) && ge(x, t[0]));
      }
    }
  }

  /**
   * `SortBy` is stable, as Python's sort is: elements whose keys tie keep
   * their relative order.
   */
  lemma {:induction false} SortByStable<T(!new)>(s: seq<T>, x: T, ge: (T, T) -> bool)
    requires TotalPreorder(ge)
    ensures Ties(SortBy(s, ge), x, ge) == Ties(s, x, ge)
  {
    if |s| > 0 {
      SortByStable(s[1..], x, ge);
      InsertTies(s[0], SortBy(s[1..], ge), x, ge);
    }
  }
}
