/** Searching, filtering and stable sorting of sequences. */
module Sequences {

  // ---------- searching ----------

  /** The first position of a wanted element, else the length. */
  function IndexWhere<T>(xs: seq<T>, wanted: T -> bool): (i: nat)
    ensures i <= |xs|
    ensures i < |xs| ==> wanted(xs[i])
    ensures forall k :: 0 <= k < i ==> !wanted(xs[k])
  {
    if xs == [] || wanted(xs[0]) then 0 else 1 + IndexWhere(xs[1..], wanted)
  }

  // ---------- lists of numbers ----------

  predicate Distinct(s: seq<nat>) {
    forall i, j :: 0 <= i < j < |s| ==> s[i] != s[j]
  }

  predicate InRange(s: seq<nat>, n: nat) {
    forall i :: 0 <= i < |s| ==> s[i] < n
  }

  lemma {:induction false} EnoughForAll(ids: seq<nat>, n: nat)
    requires forall t: nat :: t < n ==> t in ids
    ensures |ids| >= n
  {
    if n > 0 {
      var last: nat := n - 1;
      assert last in ids;
      var i :| 0 <= i < |ids| && ids[i] == last;
      var rest := ids[..i] + ids[i + 1..];
      forall t: nat | t < n - 1 ensures t in rest {
        assert t in ids;
        var k :| 0 <= k < |ids| && ids[k] == t;
        assert rest[if k < i then k else k - 1] == t;
      }
      EnoughForAll(rest, n - 1);
    }
  }

  lemma {:induction false} AtMost(ids: seq<nat>, n: nat)
    requires Distinct(ids) && InRange(ids, n)
    ensures |ids| <= n
  {
    assert ids != [] ==> ids[0] < n;
    if n > 0 {
      if i :| 0 <= i < |ids| && ids[i] == n - 1 {
        var rest := ids[..i] + ids[i + 1..];
        assert forall k :: 0 <= k < |rest| ==> rest[k] == ids[if k < i then k else k + 1];
        AtMost(rest, n - 1);
      } else {
        AtMost(ids, n - 1);
      }
    }
  }

  // ---------- filtering ----------

  function Filter<T>(xs: seq<T>, keep: T -> bool): seq<T> {
    if xs == [] then [] else Filter(xs[..|xs| - 1], keep) + if keep(xs[|xs| - 1]) then [xs[|xs| - 1]] else []
  }

  lemma {:induction false} FilterConcat<T>(a: seq<T>, b: seq<T>, keep: T -> bool)
    ensures Filter(a + b, keep) == Filter(a, keep) + Filter(b, keep)
  {
    if b == [] {
      assert a + b == a;
    } else {
      var n := |b| - 1;
      FilterConcat(a, b[..n], keep);
      assert (a + b)[..|a + b| - 1] == a + b[..n];
    }
  }

  lemma FilterOne<T>(x: T, keep: T -> bool)
    ensures Filter([x], keep) == if keep(x) then [x] else []
  {
    assert [x][..0] == [];
  }

  lemma {:induction false} FilterNone<T>(xs: seq<T>, keep: T -> bool)
    requires forall x :: x in xs ==> !keep(x)
    ensures Filter(xs, keep) == []
  {
    if xs != [] {
      var n := |xs| - 1;
      assert xs[n] in xs;
      assert forall x :: x in xs[..n] ==> x in xs;
      FilterNone(xs[..n], keep);
    }
  }

  lemma {:induction false} FilterMembers<T>(xs: seq<T>, keep: T -> bool, x: T)
    ensures x in Filter(xs, keep) <==> x in xs && keep(x)
  {
    if xs != [] {
      var n := |xs| - 1;
      assert xs == xs[..n] + [xs[n]];
      FilterMembers(xs[..n], keep, x);
    }
  }

  lemma {:induction false} FilterAll<T>(xs: seq<T>, keep: T -> bool)
    requires forall x :: x in xs ==> keep(x)
    ensures Filter(xs, keep) == xs
  {
    if xs != [] {
      var n := |xs| - 1;
      assert xs == xs[..n] + [xs[n]];
      assert forall x :: x in xs[..n] ==> x in xs;
      FilterAll(xs[..n], keep);
    }
  }

  // ---------- sorting ----------

  ghost predicate TotalOrder<T(!new)>(le: (T, T) -> bool) {
    && (forall a, b :: le(a, b) || le(b, a))
    && (forall a, b, c :: le(a, b) && le(b, c) ==> le(a, c))
  }

  predicate Sorted<T>(xs: seq<T>, le: (T, T) -> bool) {
    forall i, j :: 0 <= i < j < |xs| ==> le(xs[i], xs[j])
  }

  /** In front of its equals, so that inserting from the back keeps their order. */
  function Insert<T>(x: T, xs: seq<T>, le: (T, T) -> bool): seq<T> {
    if xs == [] || le(x, xs[0]) then [x] + xs else [xs[0]] + Insert(x, xs[1..], le)
  }

  function Sort<T>(xs: seq<T>, le: (T, T) -> bool): seq<T> {
    if xs == [] then [] else Insert(xs[0], Sort(xs[1..], le), le)
  }

  lemma {:induction false} InsertMultiset<T>(x: T, xs: seq<T>, le: (T, T) -> bool)
    ensures multiset(Insert(x, xs, le)) == multiset{x} + multiset(xs)
  {
    if xs != [] && !le(x, xs[0]) {
      InsertMultiset(x, xs[1..], le);
      assert xs == [xs[0]] + xs[1..];
    }
  }

  lemma {:induction false} InsertSorts<T(!new)>(x: T, xs: seq<T>, le: (T, T) -> bool)
    requires TotalOrder(le) && Sorted(xs, le)
    ensures Sorted(Insert(x, xs, le), le)
  {
    if xs != [] && !le(x, xs[0]) {
      var rest := Insert(x, xs[1..], le);
      InsertSorts(x, xs[1..], le);
      InsertMultiset(x, xs[1..], le);
      forall j | 0 <= j < |rest| ensures le(xs[0], rest[j]) {
        assert rest[j] in multiset(rest);
        assert rest[j] == x || rest[j] in xs[1..];
      }
    }
  }

  lemma {:induction false} SortSorts<T(!new)>(xs: seq<T>, le: (T, T) -> bool)
    requires TotalOrder(le)
    ensures Sorted(Sort(xs, le), le) && multiset(Sort(xs, le)) == multiset(xs) && |Sort(xs, le)| == |xs|
  {
    hide TotalOrder;
    if xs != [] {
      SortSorts(xs[1..], le);
      InsertSorts(xs[0], Sort(xs[1..], le), le);
      InsertMultiset(xs[0], Sort(xs[1..], le), le);
      assert xs == [xs[0]] + xs[1..];
      assert |multiset(Sort(xs, le))| == |xs|;
    }
  }

  /** A sorted sequence stays as it is. */
  lemma {:induction false} SortedStays<T>(xs: seq<T>, le: (T, T) -> bool)
    requires Sorted(xs, le)
    ensures Sort(xs, le) == xs
  {
    if xs != [] {
      SortedStays(xs[1..], le);
      assert |xs| > 1 ==> le(xs[0], xs[1]);
    }
  }

  /** Elements that are equal in the order. */
  ghost predicate Equals<T(!new)>(p: T -> bool, le: (T, T) -> bool) {
    forall a, b :: p(a) && p(b) ==> le(a, b)
  }

  lemma {:induction false} InsertStable<T(!new)>(x: T, xs: seq<T>, le: (T, T) -> bool, p: T -> bool)
    requires Equals(p, le)
    ensures Filter(Insert(x, xs, le), p) == Filter([x] + xs, p)
  {
    hide Filter;
    if xs != [] && !le(x, xs[0]) {
      var y, rest := xs[0], xs[1..];
      InsertStable(x, rest, le, p);
      assert xs == [y] + rest && [x] + ([y] + rest) == ([x] + [y]) + rest;
      FilterConcat([y], Insert(x, rest, le), p);
      FilterConcat([x], rest, p);
      FilterConcat([x] + [y], rest, p);
      FilterConcat([x], [y], p);
      FilterOne(x, p);
      FilterOne(y, p);
      assert !(p(x) && p(y));
    }
  }

  /** Sorting leaves equal elements in their order. */
  lemma {:induction false} SortStable<T(!new)>(xs: seq<T>, le: (T, T) -> bool, p: T -> bool)
    requires Equals(p, le)
    ensures Filter(Sort(xs, le), p) == Filter(xs, p)
  {
    hide Filter, Equals, Insert;
    if xs != [] {
      var x, rest := xs[0], xs[1..];
      SortStable(rest, le, p);
      InsertStable(x, Sort(rest, le), le, p);
      FilterConcat([x], Sort(rest, le), p);
      FilterConcat([x], rest, p);
      assert xs == [x] + rest;
    } else {
      assert Sort(xs, le) == xs;
    }
  }
}
