/** Strict total orders, their lexicographic extension to sequences, and sorted arrangements. */
module Orders {

  ghost predicate StrictTotalOrder<T(!new)>(less: (T, T) -> bool) {
    && (forall x :: !less(x, x))
    && (forall x, y, z :: less(x, y) && less(y, z) ==> less(x, z))
    && (forall x, y :: x != y ==> less(x, y) || less(y, x))
  }

  /** The first difference decides; a proper prefix comes first. */
  predicate LexLess<T(==)>(less: (T, T) -> bool, a: seq<T>, b: seq<T>) {
    if b == [] then false
    else if a == [] then true
    else if a[0] == b[0] then LexLess(less, a[1..], b[1..])
    else less(a[0], b[0])
  }

  lemma {:induction false} LexIrreflexive<T>(less: (T, T) -> bool, a: seq<T>)
    ensures !LexLess(less, a, a)
  {
    if a != [] {
      LexIrreflexive(less, a[1..]);
    }
  }

  lemma {:induction false} LexTransitive<T(!new)>(less: (T, T) -> bool, a: seq<T>, b: seq<T>, c: seq<T>)
    requires StrictTotalOrder(less) && LexLess(less, a, b) && LexLess(less, b, c)
    ensures LexLess(less, a, c)
  {
    if a != [] && a[0] == b[0] && b[0] == c[0] {
      LexTransitive(less, a[1..], b[1..], c[1..]);
    }
  }

  lemma {:induction false} LexTotal<T(!new)>(less: (T, T) -> bool, a: seq<T>, b: seq<T>)
    requires StrictTotalOrder(less) && a != b
    ensures LexLess(less, a, b) || LexLess(less, b, a)
  {
    if a != [] && b != [] && a[0] == b[0] {
      assert a == [a[0]] + a[1..] && b == [b[0]] + b[1..];
      LexTotal(less, a[1..], b[1..]);
    }
  }

  // ---- strings ----

  predicate CharLess(a: char, b: char) {
    a < b
  }

  /** How std::string compares. */
  predicate StringLess(a: string, b: string) {
    LexLess(CharLess, a, b)
  }

  lemma StringLessIsTotalOrder()
    ensures StrictTotalOrder(StringLess)
  {
    assert StrictTotalOrder(CharLess);
    forall a: string ensures !StringLess(a, a) {
      LexIrreflexive(CharLess, a);
    }
    forall a: string, b: string, c: string | StringLess(a, b) && StringLess(b, c) ensures StringLess(a, c) {
      LexTransitive(CharLess, a, b, c);
    }
    forall a: string, b: string | a != b ensures StringLess(a, b) || StringLess(b, a) {
      LexTotal(CharLess, a, b);
    }
  }

  // ---- sorted arrangements ----

  ghost predicate Sorted<T>(less: (T, T) -> bool, xs: seq<T>) {
    forall i, j | 0 <= i < j < |xs| :: !less(xs[j], xs[i])
  }

  /** A collection has one sorted arrangement. */
  lemma {:induction false} SortedUnique<T(!new)>(less: (T, T) -> bool, xs: seq<T>, ys: seq<T>)
    requires StrictTotalOrder(less) && Sorted(less, xs) && Sorted(less, ys) && multiset(xs) == multiset(ys)
    ensures xs == ys
  {
    assert |multiset(ys)| == |ys| && |multiset(xs)| == |xs|;
    if xs != [] {
      assert xs[0] in multiset(xs) && ys[0] in multiset(ys);
      FirstIsSmallest(less, xs, ys[0]);
      FirstIsSmallest(less, ys, xs[0]);
      hide Sorted;
      MultisetTail(xs);
      MultisetTail(ys);
      SortedTail(less, xs);
      SortedTail(less, ys);
      SortedUnique(less, xs[1..], ys[1..]);
    }
  }

  lemma SortedTail<T>(less: (T, T) -> bool, xs: seq<T>)
    requires Sorted(less, xs) && xs != []
    ensures Sorted(less, xs[1..])
  {
  }

  lemma MultisetTail<T>(xs: seq<T>)
    requires xs != []
    ensures xs == [xs[0]] + xs[1..] && multiset(xs[1..]) == multiset(xs) - multiset{xs[0]}
  {
    assert xs == [xs[0]] + xs[1..];
  }

  lemma FirstIsSmallest<T(!new)>(less: (T, T) -> bool, xs: seq<T>, x: T)
    requires Sorted(less, xs) && x in multiset(xs)
    ensures xs != [] && (x == xs[0] || !less(x, xs[0]))
  {
    assert x in xs;
    var i :| 0 <= i < |xs| && xs[i] == x;
  }

  /** Inserting before the first element that is not smaller keeps a sequence sorted. */
  lemma InsertKeepsSorted<T(!new)>(less: (T, T) -> bool, xs: seq<T>, i: nat, x: T)
    requires Sorted(less, xs) && i <= |xs| && StrictTotalOrder(less)
    requires forall k | 0 <= k < i :: less(xs[k], x)
    requires i < |xs| ==> !less(xs[i], x)
    ensures Sorted(less, xs[..i] + [x] + xs[i..])
  {
    forall k | i <= k < |xs| ensures !less(xs[k], x) {
    }
  }

  // ---- the arrangement of a set ----

  ghost predicate StrictlySorted<T>(less: (T, T) -> bool, xs: seq<T>) {
    forall i, j | 0 <= i < j < |xs| :: less(xs[i], xs[j])
  }

  ghost predicate IsLeast<T(!new)>(less: (T, T) -> bool, s: set<T>, m: T) {
    m in s && forall x | x in s :: x == m || less(m, x)
  }

  lemma {:induction false} LeastExists<T(!new)>(less: (T, T) -> bool, s: set<T>)
    requires StrictTotalOrder(less) && s != {}
    ensures exists m :: IsLeast(less, s, m)
    decreases s
  {
    var x :| x in s;
    var rest := s - {x};
    if rest == {} {
      assert s == {x};
      assert IsLeast(less, s, x);
    } else {
      LeastExists(less, rest);
      var n :| IsLeast(less, rest, n);
      assert s == rest + {x};
      assert IsLeast(less, s, if less(x, n) then x else n);
    }
  }

  /** The elements of a set from the least to the greatest. */
  ghost function Ascending<T(!new)>(less: (T, T) -> bool, s: set<T>): seq<T>
    requires StrictTotalOrder(less)
    decreases s
  {
    if s == {} then []
    else
      LeastExists(less, s);
      var m :| IsLeast(less, s, m);
      [m] + Ascending(less, s - {m})
  }

  lemma {:induction false} AscendingIs<T(!new)>(less: (T, T) -> bool, s: set<T>)
    requires StrictTotalOrder(less)
    ensures StrictlySorted(less, Ascending(less, s)) && forall x :: x in Ascending(less, s) <==> x in s
    decreases s
  {
    if s != {} {
      LeastExists(less, s);
      var m :| IsLeast(less, s, m) && Ascending(less, s) == [m] + Ascending(less, s - {m});
      AscendingIs(less, s - {m});
    }
  }

  lemma StrictTail<T(!new)>(less: (T, T) -> bool, xs: seq<T>)
    requires StrictTotalOrder(less) && StrictlySorted(less, xs) && xs != []
    ensures StrictlySorted(less, xs[1..]) && forall x :: x in xs[1..] <==> x in xs && x != xs[0]
    ensures xs == [xs[0]] + xs[1..]
  {
    assert xs == [xs[0]] + xs[1..];
  }

  /** There is no other strictly sorted sequence of the same elements. */
  lemma {:induction false} AscendingUnique<T(!new)>(less: (T, T) -> bool, s: set<T>, xs: seq<T>)
    requires StrictTotalOrder(less) && StrictlySorted(less, xs) && forall x :: x in xs <==> x in s
    ensures xs == Ascending(less, s)
    decreases s
  {
    if xs != [] {
      assert xs[0] in s;
      LeastExists(less, s);
      var m :| IsLeast(less, s, m) && Ascending(less, s) == [m] + Ascending(less, s - {m});
      assert m == xs[0];
      StrictTail(less, xs);
      hide StrictlySorted, IsLeast, Ascending, StrictTotalOrder;
      AscendingUnique(less, s - {m}, xs[1..]);
    } else {
      assert s == {};
    }
  }

  lemma AscendingUnion<T(!new)>(less: (T, T) -> bool, a: set<T>, b: set<T>)
    requires StrictTotalOrder(less) && forall x, y | x in a && y in b :: less(x, y)
    ensures Ascending(less, a + b) == Ascending(less, a) + Ascending(less, b)
  {
    AscendingIs(less, a);
    AscendingIs(less, b);
    AscendingUnique(less, a + b, Ascending(less, a) + Ascending(less, b));
  }
}
