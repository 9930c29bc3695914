/** ORDER BY and WHERE over a table held as a sequence of rows in no particular order. */
module Sorting {

  /** The rows a where clause keeps. */
  function Filter<T>(s: seq<T>, keep: T -> bool): seq<T> {
    if s == [] then []
    else if keep(s[0]) then [s[0]] + Filter(s[1..], keep)
    else Filter(s[1..], keep)
  }

  function Insert<T>(x: T, s: seq<T>, less: (T, T) -> bool): seq<T> {
    if s == [] || less(x, s[0]) then [x] + s else [s[0]] + Insert(x, s[1..], less)
  }

  /** The rows in the order an ORDER BY puts them. */
  function Sort<T>(s: seq<T>, less: (T, T) -> bool): seq<T> {
    if s == [] then [] else Insert(s[0], Sort(s[1..], less), less)
  }

  function Take<T>(s: seq<T>, n: nat): seq<T> {
    if |s| <= n then s else s[..n]
  }

  lemma {:induction false} FilterIs<T(!new)>(s: seq<T>, keep: T -> bool)
    ensures forall x :: x in Filter(s, keep) <==> x in s && keep(x)
    ensures |Filter(s, keep)| <= |s|
  {
    if s == [] {
    } else {
      FilterIs(s[1..], keep);
      assert forall x :: x in s <==> x == s[0] || x in s[1..];
    }
  }

  lemma {:induction false} FilterAppends<T>(a: seq<T>, b: seq<T>, keep: T -> bool)
    ensures Filter(a + b, keep) == Filter(a, keep) + Filter(b, keep)
  {
    if a == [] {
      assert a + b == b;
    } else {
      FilterAppends(a[1..], b, keep);
      assert (a + b)[1..] == a[1..] + b;
    }
  }

  lemma {:induction false} FilterOfAll<T>(s: seq<T>, keep: T -> bool)
    requires forall i :: 0 <= i < |s| ==> keep(s[i])
    ensures Filter(s, keep) == s
  {
    if s == [] {
    } else {
      FilterOfAll(s[1..], keep);
    }
  }

  lemma {:induction false} FilterTwice<T(!new)>(s: seq<T>, p: T -> bool, q: T -> bool)
    requires forall x :: x in s && q(x) ==> p(x)
    ensures Filter(Filter(s, p), q) == Filter(s, q)
  {
    if s == [] {
    } else {
      FilterTwice(s[1..], p, q);
      if p(s[0]) {
        assert Filter(s, p)[1..] == Filter(s[1..], p);
      }
    }
  }

  lemma {:induction false} FilterNone<T(!new)>(s: seq<T>, p: T -> bool)
    requires forall x :: x in s ==> !p(x)
    ensures Filter(s, p) == []
  {
    if s == [] {
    } else {
      FilterNone(s[1..], p);
    }
  }

  lemma {:induction false} InsertIs<T>(x: T, s: seq<T>, less: (T, T) -> bool)
    ensures |Insert(x, s, less)| == |s| + 1 && multiset(Insert(x, s, less)) == multiset(s) + multiset{x}
  {
    if s != [] && !less(x, s[0]) {
      InsertIs(x, s[1..], less);
      assert s == [s[0]] + s[1..];
    }
  }

  /** An ORDER BY loses nothing and adds nothing. */
  lemma {:induction false} SortIs<T(!new)>(s: seq<T>, less: (T, T) -> bool)
    ensures |Sort(s, less)| == |s| && multiset(Sort(s, less)) == multiset(s)
    ensures forall x :: x in Sort(s, less) <==> x in s
  {
    if s == [] {
    } else {
      SortIs(s[1..], less);
      InsertIs(s[0], Sort(s[1..], less), less);
      assert s == [s[0]] + s[1..];
    }
    assert forall x :: x in s <==> x in multiset(s);
    assert forall x :: x in Sort(s, less) <==> x in multiset(Sort(s, less));
  }

  ghost predicate Sorted<T>(s: seq<T>, less: (T, T) -> bool) {
    forall i, j :: 0 <= i < j < |s| ==> less(s[i], s[j])
  }

  ghost predicate StrictOrder<T(!new)>(less: (T, T) -> bool) {
    && (forall x, y :: less(x, y) ==> !less(y, x))
    && (forall x, y, z :: less(x, y) && less(y, z) ==> less(x, z))
  }

  /** No two rows rank alike. */
  ghost predicate Total<T>(s: seq<T>, less: (T, T) -> bool) {
    forall i, j :: 0 <= i < j < |s| ==> less(s[i], s[j]) || less(s[j], s[i])
  }

  /** In an ordered list what ranks ahead stands ahead. */
  lemma RankedAhead<T(!new)>(s: seq<T>, less: (T, T) -> bool, p: nat, q: nat)
    requires StrictOrder(less) && Sorted(s, less) && p < |s| && q < |s| && less(s[p], s[q])
    ensures p < q
  {
  }

  /** And nothing stands in it twice. */
  lemma OnePlace<T(!new)>(s: seq<T>, less: (T, T) -> bool, p: nat, q: nat)
    requires StrictOrder(less) && Sorted(s, less) && p < |s| && q < |s| && s[p] == s[q]
    ensures p == q
  {
  }

  lemma SortedBehind<T(!new)>(x: T, s: seq<T>, less: (T, T) -> bool)
    requires Sorted(s, less) && forall y :: y in s ==> less(x, y)
    ensures Sorted([x] + s, less)
  {
  }

  lemma HeadIsLeast<T(!new)>(s: seq<T>, less: (T, T) -> bool)
    requires Sorted(s, less) && s != []
    ensures Sorted(s[1..], less) && forall y :: y in s[1..] ==> less(s[0], y)
  {
    forall y | y in s[1..] ensures less(s[0], y) {
      var k :| 0 <= k < |s[1..]| && s[1..][k] == y;
      assert less(s[0], s[k + 1]);
    }
  }

  lemma InsertedMembers<T(!new)>(x: T, s: seq<T>, less: (T, T) -> bool, y: T)
    requires y in Insert(x, s, less)
    ensures y == x || y in s
  {
    InsertIs(x, s, less);
    assert y in multiset(Insert(x, s, less));
  }

  lemma {:induction false} InsertSorts<T(!new)>(x: T, s: seq<T>, less: (T, T) -> bool)
    requires StrictOrder(less) && Sorted(s, less) && forall y :: y in s ==> less(x, y) || less(y, x)
    ensures Sorted(Insert(x, s, less), less)
  {
    if s == [] {
    } else if less(x, s[0]) {
      HeadIsLeast(s, less);
      forall y | y in s ensures less(x, y) {
        assert y == s[0] || y in s[1..];
      }
      SortedBehind(x, s, less);
    } else {
      HeadIsLeast(s, less);
      InsertSorts(x, s[1..], less);
      assert s[0] in s;
      forall y | y in Insert(x, s[1..], less) ensures less(s[0], y) {
        InsertedMembers(x, s[1..], less, y);
      }
      SortedBehind(s[0], Insert(x, s[1..], less), less);
    }
  }

  lemma {:induction false} SortSorts<T(!new)>(s: seq<T>, less: (T, T) -> bool)
    requires StrictOrder(less) && Total(s, less)
    ensures Sorted(Sort(s, less), less)
  {
    if s == [] {
    } else {
      SortSorts(s[1..], less);
      SortIs(s[1..], less);
      forall y | y in s[1..] ensures less(s[0], y) || less(y, s[0]) {
        var k :| 0 <= k < |s[1..]| && s[1..][k] == y;
        assert s[k + 1] == y;
      }
      InsertSorts(s[0], Sort(s[1..], less), less);
    }
  }

  lemma {:induction false} FilterKeepsTotal<T(!new)>(s: seq<T>, keep: T -> bool, less: (T, T) -> bool)
    requires Total(s, less)
    ensures Total(Filter(s, keep), less)
  {
    if s == [] {
    } else {
      FilterKeepsTotal(s[1..], keep, less);
      FilterIs(s[1..], keep);
      forall y | y in Filter(s[1..], keep) ensures less(s[0], y) || less(y, s[0]) {
        var k :| 0 <= k < |s[1..]| && s[1..][k] == y;
        assert s[k + 1] == y;
      }
    }
  }

  lemma {:induction false} FilterKeepsSorted<T(!new)>(s: seq<T>, keep: T -> bool, less: (T, T) -> bool)
    requires Sorted(s, less)
    ensures Sorted(Filter(s, keep), less)
  {
    if s == [] {
    } else {
      FilterKeepsSorted(s[1..], keep, less);
      FilterIs(s[1..], keep);
      forall y | y in Filter(s[1..], keep) ensures less(s[0], y) {
        var k :| 0 <= k < |s[1..]| && s[1..][k] == y;
        assert s[k + 1] == y;
      }
    }
  }

  /** A strict order lists a set of rows in one way only. */
  lemma {:induction false} OneSortedList<T(!new)>(a: seq<T>, b: seq<T>, less: (T, T) -> bool)
    requires StrictOrder(less) && Sorted(a, less) && Sorted(b, less)
    requires forall x :: x in a <==> x in b
    ensures a == b
  {
    assert a != [] ==> a[0] in b;
    assert b != [] ==> b[0] in a;
    if a == [] {
    } else {
      HeadIsFirst(a, b[0], less);
      HeadIsFirst(b, a[0], less);
      forall x ensures x in a[1..] <==> x in b[1..] {
        InTail(a, x, less);
        InTail(b, x, less);
      }
      OneSortedList(a[1..], b[1..], less);
      assert a == [a[0]] + a[1..] && b == [b[0]] + b[1..];
    }
  }

  lemma HeadIsFirst<T>(s: seq<T>, x: T, less: (T, T) -> bool)
    requires Sorted(s, less) && x in s
    ensures x == s[0] || less(s[0], x)
  {
    var i :| 0 <= i < |s| && s[i] == x;
  }

  lemma InTail<T(!new)>(s: seq<T>, x: T, less: (T, T) -> bool)
    requires StrictOrder(less) && Sorted(s, less) && s != []
    ensures x in s[1..] <==> x in s && x != s[0]
  {
    if x in s[1..] {
      var k :| 0 <= k < |s[1..]| && s[1..][k] == x;
      assert less(s[0], s[k + 1]);
    }
  }

  /** In a list without repeats nothing counts twice. */
  lemma {:induction false} OnceEach<T>(s: seq<T>, x: T)
    requires forall i, j :: 0 <= i < j < |s| ==> s[i] != s[j]
    ensures multiset(s)[x] == if x in s then 1 else 0
  {
    if s == [] {
    } else {
      var init := s[..|s| - 1];
      assert s == init + [s[|s| - 1]];
      OnceEach(init, x);
      assert forall k :: 0 <= k < |init| ==> init[k] != s[|s| - 1];
    }
  }

  // ------------------------------------------------------------ blocks, one after another

  /** The parts, one after another. */
  function Chained<T>(parts: seq<seq<T>>): seq<T> {
    if parts == [] then [] else parts[0] + Chained(parts[1..])
  }

  lemma Regrouped<T>(a: seq<T>, b: seq<T>, c: seq<T>)
    ensures (a + b) + c == a + (b + c)
  {
  }

  function Concat<T>(block: nat -> seq<T>, n: nat): seq<T> {
    if n == 0 then [] else Concat(block, n - 1) + block(n - 1)
  }

  lemma {:induction false} ConcatIs<T>(block: nat -> seq<T>, n: nat, x: T)
    ensures x in Concat(block, n) <==> exists i :: 0 <= i < n && x in block(i)
  {
    if n == 0 {
    } else {
      ConcatIs(block, n - 1, x);
    }
  }

  lemma {:induction false} ConcatSame<T>(a: nat -> seq<T>, b: nat -> seq<T>, n: nat)
    requires forall i :: 0 <= i < n ==> a(i) == b(i)
    ensures Concat(a, n) == Concat(b, n)
  {
    if n == 0 {
    } else {
      ConcatSame(a, b, n - 1);
    }
  }

  lemma {:induction false} ConcatFilter<T>(block: nat -> seq<T>, n: nat, keep: T -> bool, m: nat, found: seq<T>)
    requires forall i :: 0 <= i < n ==> Filter(block(i), keep) == if i == m then found else []
    ensures Filter(Concat(block, n), keep) == if m < n then found else []
  {
    if n == 0 {
    } else {
      ConcatFilter(block, n - 1, keep, m, found);
      FilterAppends(Concat(block, n - 1), block(n - 1), keep);
    }
  }

  lemma {:induction false} ConcatSorts<T(!new)>(block: nat -> seq<T>, n: nat, less: (T, T) -> bool)
    requires forall i :: 0 <= i < n ==> Sorted(block(i), less)
    requires forall i, j, x, y :: 0 <= i < j < n && x in block(i) && y in block(j) ==> less(x, y)
    ensures Sorted(Concat(block, n), less)
  {
    if n == 0 {
    } else {
      ConcatSorts(block, n - 1, less);
      var init, last := Concat(block, n - 1), block(n - 1);
      forall a, b | 0 <= a < |init| && 0 <= b < |last| ensures less(init[a], last[b]) {
        assert init[a] in init && last[b] in last;
        ConcatIs(block, n - 1, init[a]);
      }
    }
  }
}
