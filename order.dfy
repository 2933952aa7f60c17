// Python's ordering of strings and of (string, string) tuples, and the
// stable sort behind sorted(), shared by the report, the image choice and
// the host-list compressor.
module Order {

  /** Python's string comparison: code point by code point, a proper
      prefix sorting first. */
  predicate StrLess(a: string, b: string)
    decreases |a|
  {
    |b| > 0 && (|a| == 0 || a[0] < b[0] || (a[0] == b[0] && StrLess(a[1..], b[1..])))
  }

  lemma {:induction false} StrLessIrreflexive(a: string)
    ensures !StrLess(a, a)
    decreases |a|
  {
    if |a| > 0 { StrLessIrreflexive(a[1..]); }
  }

  lemma {:induction false} StrLessTransitive(a: string, b: string, c: string)
    requires StrLess(a, b) && StrLess(b, c)
    ensures StrLess(a, c)
    decreases |a|
  {
    if |a| > 0 && a[0] == b[0] && b[0] == c[0] {
      StrLessTransitive(a[1..], b[1..], c[1..]);
    }
  }

  lemma {:induction false} StrLessTotal(a: string, b: string)
    requires a != b
    ensures StrLess(a, b) || StrLess(b, a)
    decreases |a|
  {
    if |a| > 0 && |b| > 0 && a[0] == b[0] {
      assert a == [a[0]] + a[1..] && b == [b[0]] + b[1..];
      StrLessTotal(a[1..], b[1..]);
    }
  }

  /** Tuple comparison for (host, server) pairs. */
  predicate PairLess(p: (string, string), q: (string, string))
  {
    StrLess(p.0, q.0) || (p.0 == q.0 && StrLess(p.1, q.1))
  }

  ghost predicate IsStrictTotalOrder<T(!new)>(lt: (T, T) -> bool)
  {
    && (forall a :: !lt(a, a))
    && (forall a, b, c :: lt(a, b) && lt(b, c) ==> lt(a, c))
    && (forall a, b :: a != b ==> lt(a, b) || lt(b, a))
  }

  /** Orders that may leave distinct elements unordered, as long as being
      unordered is transitive (the orders sorting by a key give). */
  ghost predicate IsStrictWeakOrder<T(!new)>(lt: (T, T) -> bool)
  {
    && (forall a :: !lt(a, a))
    && (forall a, b, c :: lt(a, b) && lt(b, c) ==> lt(a, c))
    && (forall a, b, c :: lt(a, c) ==> lt(a, b) || lt(b, c))
  }

  lemma TotalIsWeak<T(!new)>(lt: (T, T) -> bool)
    requires IsStrictTotalOrder(lt)
    ensures IsStrictWeakOrder(lt)
  {
    forall a, b, c | lt(a, c) ensures lt(a, b) || lt(b, c) {
      assert a == b || lt(a, b) || lt(b, a);
    }
  }

  lemma StrLessIsOrder()
    ensures IsStrictTotalOrder((a, b) => StrLess(a, b))
  {
    forall a: string ensures !StrLess(a, a) { StrLessIrreflexive(a); }
    forall a: string, b: string, c: string | StrLess(a, b) && StrLess(b, c) ensures StrLess(a, c) {
      StrLessTransitive(a, b, c);
    }
    forall a: string, b: string | a != b ensures StrLess(a, b) || StrLess(b, a) { StrLessTotal(a, b); }
  }

  lemma PairLessIsOrder()
    ensures IsStrictTotalOrder((p, q) => PairLess(p, q))
  {
    forall p: (string, string) ensures !PairLess(p, p) {
      StrLessIrreflexive(p.0); StrLessIrreflexive(p.1);
    }
    forall p: (string, string), q: (string, string), r: (string, string) | PairLess(p, q) && PairLess(q, r)
      ensures PairLess(p, r)
    {
      if StrLess(p.0, q.0) && StrLess(q.0, r.0) { StrLessTransitive(p.0, q.0, r.0); }
      if p.0 == q.0 && q.0 == r.0 {
        StrLessIrreflexive(p.0);
        StrLessTransitive(p.1, q.1, r.1);
      }
    }
    forall p: (string, string), q: (string, string) | p != q ensures PairLess(p, q) || PairLess(q, p) {
      if p.0 != q.0 { StrLessTotal(p.0, q.0); } else { StrLessTotal(p.1, q.1); }
    }
  }

  /** No later element sorts before an earlier one. */
  predicate Sorted<T>(ys: seq<T>, lt: (T, T) -> bool)
  {
    forall i, j :: 0 <= i < j < |ys| ==> !lt(ys[j], ys[i])
  }

  /** Each element sorts strictly before the next. */
  predicate StrictlySorted<T>(ys: seq<T>, lt: (T, T) -> bool)
  {
    forall i, j :: 0 <= i < j < |ys| ==> lt(ys[i], ys[j])
  }

  /** Inserts x ahead of the first element that does not sort before it. */
  function Insert<T>(x: T, ys: seq<T>, lt: (T, T) -> bool): (r: seq<T>)
    ensures multiset(r) == multiset(ys) + multiset{x}
  {
    if ys == [] || !lt(ys[0], x) then [x] + ys
    else
      assert ys == [ys[0]] + ys[1..];
      [ys[0]] + Insert(x, ys[1..], lt)
  }

  /** sorted(): a stable insertion sort, so elements that compare equal keep
      their original order. */
  function Sort<T>(xs: seq<T>, lt: (T, T) -> bool): (r: seq<T>)
    ensures multiset(r) == multiset(xs)
  {
    if xs == [] then []
    else
      assert xs == [xs[0]] + xs[1..];
      Insert(xs[0], Sort(xs[1..], lt), lt)
  }

  /** A strict weak order on the elements that satisfy ok: Python's sorted()
      with a cmp function is only meaningful on such elements. */
  ghost predicate IsStrictWeakOrderOn<T(!new)>(lt: (T, T) -> bool, ok: T -> bool)
  {
    && (forall a :: ok(a) ==> !lt(a, a))
    && (forall a, b, c :: ok(a) && ok(b) && ok(c) && lt(a, b) && lt(b, c) ==> lt(a, c))
    && (forall a, b, c :: ok(a) && ok(b) && ok(c) && lt(a, c) ==> lt(a, b) || lt(b, c))
  }

  ghost predicate AllOk<T>(xs: seq<T>, ok: T -> bool)
  {
    forall x :: x in xs ==> ok(x)
  }

  /** Not sorting before is transitive in a strict weak order. */
  lemma NotLessTransitive<T(!new)>(a: T, b: T, c: T, lt: (T, T) -> bool, ok: T -> bool)
    requires IsStrictWeakOrderOn(lt, ok) && ok(a) && ok(b) && ok(c)
    requires !lt(a, b) && !lt(b, c)
    ensures !lt(a, c)
  {
  }

  lemma {:induction false} InsertSorted<T(!new)>(x: T, ys: seq<T>, lt: (T, T) -> bool, ok: T -> bool)
    requires IsStrictWeakOrderOn(lt, ok) && ok(x) && AllOk(ys, ok) && Sorted(ys, lt)
    ensures Sorted(Insert(x, ys, lt), lt)
  {
    if ys == [] || !lt(ys[0], x) {
      var r := [x] + ys;
      forall i, j | 0 <= i < j < |r| ensures !lt(r[j], r[i]) {
        if i == 0 {
          assert r[j] in ys;
          NotLessTransitive(r[j], ys[0], x, lt, ok);
        }
      }
    } else {
      InsertSorted(x, ys[1..], lt, ok);
      var tail := Insert(x, ys[1..], lt);
      var r := [ys[0]] + tail;
      forall i, j | 0 <= i < j < |r| ensures !lt(r[j], r[i]) {
        if i == 0 {
          assert r[j] in multiset(tail);
          assert r[j] in multiset(ys[1..]) + multiset{x};
          if r[j] != x {
            assert r[j] in ys[1..];
            var k :| 0 <= k < |ys[1..]| && ys[1..][k] == r[j];
            assert ys[k + 1] == r[j];
          }
        }
      }
    }
  }

  /** Sorting elements on which lt is a strict weak order sorts them. */
  lemma {:induction false} SortSortedOn<T(!new)>(xs: seq<T>, lt: (T, T) -> bool, ok: T -> bool)
    requires IsStrictWeakOrderOn(lt, ok) && AllOk(xs, ok)
    ensures Sorted(Sort(xs, lt), lt)
  {
    if xs != [] {
      SortSortedOn(xs[1..], lt, ok);
      var ys := Sort(xs[1..], lt);
      forall y | y in ys ensures ok(y) {
        assert y in multiset(ys);
        assert y in xs[1..];
      }
      InsertSorted(xs[0], ys, lt, ok);
    }
  }

  lemma SortSorted<T(!new)>(xs: seq<T>, lt: (T, T) -> bool)
    requires IsStrictWeakOrder(lt)
    ensures Sorted(Sort(xs, lt), lt)
  {
    var ok := (x: T) => true;
    assert IsStrictWeakOrderOn(lt, ok);
    SortSortedOn(xs, lt, ok);
  }

  /** Sorting elements that are pairwise distinct orders them strictly. */
  lemma SortedDistinctIsStrict<T(!new)>(ys: seq<T>, lt: (T, T) -> bool)
    requires IsStrictTotalOrder(lt) && Sorted(ys, lt)
    requires forall i, j :: 0 <= i < j < |ys| ==> ys[i] != ys[j]
    ensures StrictlySorted(ys, lt)
  {
    forall i, j | 0 <= i < j < |ys| ensures lt(ys[i], ys[j]) {
      assert ys[i] != ys[j] && !lt(ys[j], ys[i]);
    }
  }

  /** The head of a strictly sorted sequence sorts before its other elements. */
  lemma HeadIsLeast<T>(a: seq<T>, x: T, lt: (T, T) -> bool)
    requires StrictlySorted(a, lt) && x in a
    ensures x == a[0] || lt(a[0], x)
  {
    var k :| 0 <= k < |a| && a[k] == x;
    assert k == 0 || lt(a[0], a[k]);
  }

  /** A strictly sorted sequence is fixed by its set of elements. */
  lemma {:induction false} StrictlySortedUnique<T(!new)>(a: seq<T>, b: seq<T>, lt: (T, T) -> bool)
    requires IsStrictTotalOrder(lt)
    requires StrictlySorted(a, lt) && StrictlySorted(b, lt)
    requires (set x | x in a) == (set x | x in b)
    ensures a == b
    decreases |a|
  {
    var sa := set x | x in a;
    var sb := set x | x in b;
    assert a != [] ==> a[0] in sa;
    assert b != [] ==> b[0] in sb;
    if a != [] {
      HeadIsLeast(a, b[0], lt);
      HeadIsLeast(b, a[0], lt);
      assert a[0] == b[0];
      forall x ensures x in a[1..] <==> x in b[1..] {
        if x in a[1..] {
          HeadIsLeast(a[1..], x, lt);
          assert x in sa && lt(a[0], x);
        }
        if x in b[1..] {
          HeadIsLeast(b[1..], x, lt);
          assert x in sb && lt(b[0], x);
        }
      }
      StrictlySortedUnique(a[1..], b[1..], lt);
      assert a == [a[0]] + a[1..] && b == [b[0]] + b[1..];
    }
  }

  predicate Distinct<T(==)>(xs: seq<T>) { forall i, j :: 0 <= i < j < |xs| ==> xs[i] != xs[j] }

  /** list(s): the elements of a set, each once, in an arbitrary order. */
  method ListSet<T>(s: set<T>) returns (xs: seq<T>)
    ensures Distinct(xs) && forall x :: x in xs <==> x in s
  {
    xs := [];
    var left := s;
    while left != {}
      invariant Distinct(xs) && (forall x :: x in xs <==> x in s && x !in left)
      invariant left <= s
      decreases |left|
    {
      var x :| x in left;
      xs := xs + [x];
      left := left - {x};
    }
  }

  lemma DistinctMultiplicity<T>(xs: seq<T>, x: T)
    requires Distinct(xs)
    ensures multiset(xs)[x] <= 1
  {
    if xs != [] {
      assert xs == [xs[0]] + xs[1..];
      DistinctMultiplicity(xs[1..], x);
    }
  }

  /** Sorting keeps which elements there are and that each is there once. */
  lemma SortKeepsDistinct<T>(listed: seq<T>, lt: (T, T) -> bool)
    requires Distinct(listed)
    ensures Distinct(Sort(listed, lt))
    ensures forall x :: x in Sort(listed, lt) <==> x in listed
  {
    var r := Sort(listed, lt);
    forall x ensures x in r <==> x in listed {
      assert x in r <==> x in multiset(r);
      assert x in listed <==> x in multiset(listed);
    }
    forall i, j | 0 <= i < j < |r| ensures r[i] != r[j] {
      DistinctMultiplicity(listed, r[i]);
      assert r == r[..i] + [r[i]] + r[i + 1..j] + [r[j]] + r[j + 1..];
      assert multiset(r)[r[i]] <= 1;
    }
  }

  /** sorted() of distinct elements under a strict total order: each
      element once, strictly ascending. */
  lemma SortDistinctStrictly<T(!new)>(listed: seq<T>, lt: (T, T) -> bool)
    requires Distinct(listed) && IsStrictTotalOrder(lt)
    ensures StrictlySorted(Sort(listed, lt), lt)
    ensures forall x :: x in Sort(listed, lt) <==> x in listed
  {
    TotalIsWeak(lt);
    SortSorted(listed, lt);
    SortKeepsDistinct(listed, lt);
    SortedDistinctIsStrict(Sort(listed, lt), lt);
  }

  /** sorted(listed) for distinct elements. */
  method SortDistinct<T(!new)>(listed: seq<T>, lt: (T, T) -> bool) returns (r: seq<T>)
    requires Distinct(listed) && IsStrictTotalOrder(lt)
    ensures r == Sort(listed, lt)
    ensures StrictlySorted(r, lt)
    ensures forall x :: x in r <==> x in listed
  {
    r := Sort(listed, lt);
    SortDistinctStrictly(listed, lt);
  }
}
