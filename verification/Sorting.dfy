/**
 Code-point string order and the two uses of Python's `sorted` in the pipeline:
 stable sorting by an order, and the ascending listing of a set of strings.
 */
module Sorting {

  predicate StrLe(a: string, b: string) {
    a == "" || (b != "" && (a[0] < b[0] || (a[0] == b[0] && StrLe(a[1..], b[1..]))))
  }

  predicate StrLt(a: string, b: string) {
    StrLe(a, b) && a != b
  }

  lemma StrLeTotal(a: string, b: string)
    ensures StrLe(a, b) || StrLe(b, a)
  {
  }

  lemma StrLeAntisymmetric(a: string, b: string)
    requires StrLe(a, b) && StrLe(b, a)
    ensures a == b
  {
    if a != "" && b != "" {
      StrLeAntisymmetric(a[1..], b[1..]);
    }
  }

  lemma StrLeTransitive(a: string, b: string, c: string)
    requires StrLe(a, b) && StrLe(b, c)
    ensures StrLe(a, c)
  {
    if a != "" && b != "" && c != "" && a[0] == b[0] && b[0] == c[0] {
      StrLeTransitive(a[1..], b[1..], c[1..]);
    }
  }

  lemma StrLtTransitive(a: string, b: string, c: string)
    requires StrLt(a, b) && StrLt(b, c)
    ensures StrLt(a, c)
  {
    StrLeTransitive(a, b, c);
    if a == c {
      StrLeAntisymmetric(a, b);
    }
  }

  ghost predicate TotalPreorder<T(!new)>(le: (T, T) -> bool) {
    && (forall a, b :: le(a, b) || le(b, a))
    && (forall a, b, c :: le(a, b) && le(b, c) ==> le(a, c))
  }

  ghost predicate SortedBy<T>(xs: seq<T>, le: (T, T) -> bool) {
    forall i, j | 0 <= i < j < |xs| :: le(xs[i], xs[j])
  }

  function Insert<T>(x: T, xs: seq<T>, le: (T, T) -> bool): (r: seq<T>)
    ensures multiset(r) == multiset(xs) + multiset{x}
  {
    if xs == [] || le(x, xs[0]) then
      assert [x] + xs == [x] + xs;
      [x] + xs
    else
      assert xs == [xs[0]] + xs[1..];
      [xs[0]] + Insert(x, xs[1..], le)
  }

  /** `sorted(xs, key=...)`, stable, where `le` compares the keys. */
  function SortBy<T>(xs: seq<T>, le: (T, T) -> bool): (r: seq<T>)
    ensures multiset(r) == multiset(xs)
    ensures |r| == |xs|
  {
    if xs == [] then []
    else
      assert xs == [xs[0]] + xs[1..];
      var r := Insert(xs[0], SortBy(xs[1..], le), le);
      SameSize(r, xs);
      r
  }

  lemma SameSize<T>(a: seq<T>, b: seq<T>)
    requires multiset(a) == multiset(b)
    ensures |a| == |b|
  {
    assert |multiset(a)| == |a| && |multiset(b)| == |b|;
  }

  lemma SameElements<T>(a: seq<T>, b: seq<T>)
    requires multiset(a) == multiset(b)
    ensures forall x :: x in a <==> x in b
  {
    assert forall x :: x in a <==> x in multiset(a);
    assert forall x :: x in b <==> x in multiset(b);
  }

  lemma InsertSorted<T(!new)>(x: T, xs: seq<T>, le: (T, T) -> bool)
    requires TotalPreorder(le) && SortedBy(xs, le)
    ensures SortedBy(Insert(x, xs, le), le)
  {
    if xs != [] && !le(x, xs[0]) {
      var rest := Insert(x, xs[1..], le);
      InsertSorted(x, xs[1..], le);
      assert forall y | y in rest :: le(xs[0], y) by {
        assert multiset(rest) == multiset(xs[1..]) + multiset{x};
        forall y | y in rest ensures le(xs[0], y) {
          assert y in multiset(rest);
          assert y == x || y in xs[1..];
        }
      }
    }
  }

  lemma {:induction false} SortBySorts<T(!new)>(xs: seq<T>, le: (T, T) -> bool)
    requires TotalPreorder(le)
    ensures SortedBy(SortBy(xs, le), le)
  {
    if xs != [] {
      SortBySorts(xs[1..], le);
      InsertSorted(xs[0], SortBy(xs[1..], le), le);
    }
  }

  /** A list already in order is left as it is. */
  lemma {:induction false} SortBySortedIsIdentity<T>(xs: seq<T>, le: (T, T) -> bool)
    requires SortedBy(xs, le)
    ensures SortBy(xs, le) == xs
  {
    if xs != [] {
      SortBySortedIsIdentity(xs[1..], le);
      assert xs == [xs[0]] + xs[1..];
    }
  }

  predicate StrictlyAscending(xs: seq<string>) {
    forall i, j | 0 <= i < j < |xs| :: StrLt(xs[i], xs[j])
  }

  function InsertUnique(x: string, xs: seq<string>): (r: seq<string>)
    ensures forall y :: y in r <==> y == x || y in xs
  {
    if xs == [] then [x]
    else if x == xs[0] then xs
    else if StrLe(x, xs[0]) then [x] + xs
    else [xs[0]] + InsertUnique(x, xs[1..])
  }

  /** `tuple(sorted(set(xs)))` */
  function SortedUnique(xs: seq<string>): (r: seq<string>)
    ensures forall y :: y in r <==> y in xs
  {
    if xs == [] then [] else InsertUnique(xs[0], SortedUnique(xs[1..]))
  }

  lemma {:induction false} InsertUniqueAscends(x: string, xs: seq<string>)
    requires StrictlyAscending(xs)
    ensures StrictlyAscending(InsertUnique(x, xs))
  {
    if xs == [] || x == xs[0] {
    } else if StrLe(x, xs[0]) {
      forall j | 0 <= j < |xs| ensures StrLt(x, xs[j]) {
        if j > 0 { StrLtTransitive(x, xs[0], xs[j]); }
      }
    } else {
      StrLeTotal(x, xs[0]);
      var rest := InsertUnique(x, xs[1..]);
      InsertUniqueAscends(x, xs[1..]);
      forall y | y in rest ensures StrLt(xs[0], y) {
        if y != x {
          var j :| 0 <= j < |xs| - 1 && xs[1..][j] == y;
          assert xs[j + 1] == y;
        }
      }
    }
  }

  lemma {:induction false} SortedUniqueAscends(xs: seq<string>)
    ensures StrictlyAscending(SortedUnique(xs))
  {
    if xs != [] {
      SortedUniqueAscends(xs[1..]);
      InsertUniqueAscends(xs[0], SortedUnique(xs[1..]));
    }
  }

  /** The ascending listing depends only on which strings occur, not on order or repetition. */
  lemma {:induction false} AscendingListingUnique(a: seq<string>, b: seq<string>)
    requires StrictlyAscending(a) && StrictlyAscending(b)
    requires forall x :: x in a <==> x in b
    ensures a == b
  {
    assert a != [] ==> a[0] in b;
    assert b != [] ==> b[0] in a;
    if a != [] && b != [] {
      assert a[0] == b[0] by {
        assert a[0] in b && b[0] in a;
        var j :| 0 <= j < |b| && b[j] == a[0];
        var i :| 0 <= i < |a| && a[i] == b[0];
        if j > 0 && i > 0 { StrLeAntisymmetric(a[0], b[0]); }
      }
      assert a == [a[0]] + a[1..] && b == [b[0]] + b[1..];
      forall x ensures x in a[1..] <==> x in b[1..] {
        assert x in a <==> x == a[0] || x in a[1..];
        assert x in b <==> x == b[0] || x in b[1..];
      }
      AscendingListingUnique(a[1..], b[1..]);
    }
  }
}
