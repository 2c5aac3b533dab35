/** A stable sort, and when its result does not depend on the input order. */
module Sorting {
  import opened Prelude

  function Insert<T(==)>(x: T, s: seq<T>, le: (T, T) -> bool): seq<T> {
    if s == [] then [x]
    else if le(x, s[0]) then [x] + s
    else [s[0]] + Insert(x, s[1..], le)
  }

  /** Sort by `le`; elements that compare equal keep their order. */
  function Sort<T(==)>(s: seq<T>, le: (T, T) -> bool): seq<T> {
    if s == [] then [] else Insert(s[0], Sort(s[1..], le), le)
  }

  ghost predicate Ordered<T>(s: seq<T>, le: (T, T) -> bool) {
    forall i, j :: 0 <= i < j < |s| ==> le(s[i], s[j])
  }

  ghost predicate Preorder<T(!new)>(le: (T, T) -> bool) {
    && (forall x, y :: le(x, y) || le(y, x))
    && (forall x, y, z :: le(x, y) && le(y, z) ==> le(x, z))
  }

  lemma {:induction false} InsertElements<T>(x: T, s: seq<T>, le: (T, T) -> bool)
    ensures multiset(Insert(x, s, le)) == multiset(s) + multiset{x}
  {
    if s != [] && !le(x, s[0]) {
      InsertElements(x, s[1..], le);
      assert s == [s[0]] + s[1..];
    }
  }

  lemma {:induction false} SortElements<T>(s: seq<T>, le: (T, T) -> bool)
    ensures multiset(Sort(s, le)) == multiset(s)
  {
    if s != [] {
      SortElements(s[1..], le);
      InsertElements(s[0], Sort(s[1..], le), le);
      assert s == [s[0]] + s[1..];
    }
  }

  lemma {:induction false} InsertOrdered<T(!new)>(x: T, s: seq<T>, le: (T, T) -> bool)
    requires Preorder(le) && Ordered(s, le)
    ensures Ordered(Insert(x, s, le), le)
  {
    if s != [] && !le(x, s[0]) {
      var rest := Insert(x, s[1..], le);
      InsertOrdered(x, s[1..], le);
      InsertElements(x, s[1..], le);
      forall j | 0 <= j < |rest|
        ensures le(s[0], rest[j])
      {
        assert rest[j] in multiset(rest);
        assert rest[j] == x || rest[j] in s[1..];
      }
    }
  }

  lemma {:induction false} SortOrdered<T(!new)>(s: seq<T>, le: (T, T) -> bool)
    requires Preorder(le)
    ensures Ordered(Sort(s, le), le)
  {
    if s != [] {
      SortOrdered(s[1..], le);
      InsertOrdered(s[0], Sort(s[1..], le), le);
    }
  }

  lemma SameHead<T>(a: seq<T>, b: seq<T>, le: (T, T) -> bool)
    requires a != [] && b != [] && Ordered(a, le) && Ordered(b, le) && multiset(a) == multiset(b)
    requires forall x, y :: x in a && y in a && le(x, y) && le(y, x) ==> x == y
    ensures a[0] == b[0] && multiset(a[1..]) == multiset(b[1..])
  {
    assert a[0] in multiset(b) && b[0] in multiset(a);
    assert a[0] == b[0];
    assert [] + [a[0]] + b[1..] == b && [] + b[1..] == b[1..];
    WithoutHead(a, [], b[1..]);
  }

  /** Ordered permutations of one another are equal when only equal elements tie. */
  lemma {:induction false} OrderedUnique<T>(a: seq<T>, b: seq<T>, le: (T, T) -> bool)
    requires Ordered(a, le) && Ordered(b, le) && multiset(a) == multiset(b)
    requires forall x, y :: x in a && y in a && le(x, y) && le(y, x) ==> x == y
    ensures a == b
  {
    assert |a| == |multiset(a)| == |multiset(b)| == |b|;
    if a != [] {
      SameHead(a, b, le);
      OrderedUnique(a[1..], b[1..], le);
      assert a == [a[0]] + a[1..] && b == [b[0]] + b[1..];
    }
  }

  /** The order of the input is irrelevant when only equal elements tie. */
  lemma SortIgnoresOrder<T(!new)>(a: seq<T>, b: seq<T>, le: (T, T) -> bool)
    requires Preorder(le) && multiset(a) == multiset(b)
    requires forall x, y :: x in a && y in a && le(x, y) && le(y, x) ==> x == y
    ensures Sort(a, le) == Sort(b, le)
  {
    SortElements(a, le);
    SortElements(b, le);
    SortOrdered(a, le);
    SortOrdered(b, le);
    forall x | x in Sort(a, le)
      ensures x in a
    {
      assert x in multiset(Sort(a, le));
    }
    OrderedUnique(Sort(a, le), Sort(b, le), le);
  }

  /** Where the first element of a sequence sits in a permutation of it. */
  lemma FindHead<T>(x: seq<T>, y: seq<T>) returns (front: seq<T>, back: seq<T>)
    requires x != [] && multiset(x) == multiset(y)
    ensures y == front + [x[0]] + back
    ensures multiset(x[1..]) == multiset(front + back)
  {
    assert x[0] in multiset(y);
    var k :| 0 <= k < |y| && y[k] == x[0];
    front, back := y[..k], y[k + 1..];
    assert y == front + [x[0]] + back;
    WithoutHead(x, front, back);
  }

  lemma WithoutHead<T>(x: seq<T>, front: seq<T>, back: seq<T>)
    requires x != [] && multiset(x) == multiset(front + [x[0]] + back)
    ensures multiset(x[1..]) == multiset(front + back)
  {
    assert x == [x[0]] + x[1..];
    assert multiset(x[1..]) == multiset(x) - multiset{x[0]};
    assert multiset(front + back) == multiset(front + [x[0]] + back) - multiset{x[0]};
  }

  // ------------------------------------------------------------ filtering

  function Filter<T>(s: seq<T>, keep: T -> bool): seq<T> {
    if s == [] then [] else (if keep(s[0]) then [s[0]] else []) + Filter(s[1..], keep)
  }

  lemma {:induction false} FilterConcat<T>(a: seq<T>, b: seq<T>, keep: T -> bool)
    ensures Filter(a + b, keep) == Filter(a, keep) + Filter(b, keep)
  {
    if a == [] {
      assert a + b == b;
    } else {
      assert (a + b)[1..] == a[1..] + b && (a + b)[0] == a[0];
      FilterConcat(a[1..], b, keep);
      Assoc(if keep(a[0]) then [a[0]] else [], Filter(a[1..], keep), Filter(b, keep));
    }
  }

  lemma {:induction false} FilterNone<T>(s: seq<T>, keep: T -> bool)
    requires forall i :: 0 <= i < |s| ==> !keep(s[i])
    ensures Filter(s, keep) == []
  {
    if s != [] {
      FilterNone(s[1..], keep);
    }
  }

  lemma {:induction false} FilterMembers<T>(s: seq<T>, keep: T -> bool)
    ensures forall x :: x in Filter(s, keep) <==> x in s && keep(x)
  {
    if s != [] {
      FilterMembers(s[1..], keep);
      assert s == [s[0]] + s[1..];
    }
  }

  lemma {:induction false} FilterPermutes<T>(a: seq<T>, b: seq<T>, keep: T -> bool)
    requires multiset(a) == multiset(b)
    ensures multiset(Filter(a, keep)) == multiset(Filter(b, keep))
  {
    if a == [] {
      assert |b| == |multiset(b)| == |multiset(a)| == 0;
    } else {
      var front, back := FindHead(a, b);
      FilterPermutes(a[1..], front + back, keep);
      FilterConcat(front, back, keep);
      FilterConcat(front, [a[0]] + back, keep);
      FilterConcat([a[0]], back, keep);
      assert b == front + ([a[0]] + back);
    }
  }

  /** What either of two exclusive filters keeps. */
  lemma {:induction false} FilterPartition<T(!new)>(s: seq<T>, whole: T -> bool, a: T -> bool, b: T -> bool)
    requires forall x :: (whole(x) <==> a(x) || b(x)) && !(a(x) && b(x))
    ensures multiset(Filter(s, whole)) == multiset(Filter(s, a)) + multiset(Filter(s, b))
  {
    if s != [] {
      FilterPartition(s[1..], whole, a, b);
      FilterHead(s, whole);
      FilterHead(s, a);
      FilterHead(s, b);
    }
  }

  lemma FilterHead<T>(s: seq<T>, keep: T -> bool)
    requires s != []
    ensures multiset(Filter(s, keep)) == (if keep(s[0]) then multiset{s[0]} else multiset{}) + multiset(Filter(s[1..], keep))
  {
  }

  /** A stable sort and a filter may be done in either order. */
  lemma {:induction false} FilterSort<T(!new)>(s: seq<T>, le: (T, T) -> bool, keep: T -> bool)
    requires Preorder(le)
    ensures Filter(Sort(s, le), keep) == Sort(Filter(s, keep), le)
  {
    if s != [] {
      FilterSort(s[1..], le, keep);
      SortOrdered(s[1..], le);
      FilterInsert(s[0], Sort(s[1..], le), le, keep);
      if keep(s[0]) {
        assert Filter(s, keep) == [s[0]] + Filter(s[1..], keep);
        assert Filter(s, keep)[1..] == Filter(s[1..], keep);
      } else {
        assert Filter(s, keep) == Filter(s[1..], keep);
      }
    }
  }

  lemma {:induction false} FilterInsert<T(!new)>(x: T, s: seq<T>, le: (T, T) -> bool, keep: T -> bool)
    requires Preorder(le) && Ordered(s, le)
    ensures Filter(Insert(x, s, le), keep) == if keep(x) then Insert(x, Filter(s, keep), le) else Filter(s, keep)
  {
    if s == [] {
    } else if le(x, s[0]) {
      assert ([x] + s)[1..] == s;
      FilterMembers(s, keep);
      var kept := Filter(s, keep);
      if kept != [] {
        assert kept[0] in s;
        assert le(x, kept[0]);
      }
    } else {
      FilterInsert(x, s[1..], le, keep);
      var rest := Insert(x, s[1..], le);
      FilterConcat([s[0]], rest, keep);
      assert Filter([s[0]], keep) == if keep(s[0]) then [s[0]] else [];
      if keep(s[0]) {
        assert Filter(s, keep) == [s[0]] + Filter(s[1..], keep);
        assert Filter(s, keep)[1..] == Filter(s[1..], keep);
      } else {
        assert Filter(s, keep) == Filter(s[1..], keep);
      }
    }
  }
}
