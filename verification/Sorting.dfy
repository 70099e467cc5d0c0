/** Sorting by a total order: the result depends only on the multiset of elements. */
module Sorting {
  ghost predicate TotalOrder<T(!new)>(leq: (T, T) -> bool) {
    && (forall a, b :: leq(a, b) || leq(b, a))
    && (forall a, b :: leq(a, b) && leq(b, a) ==> a == b)
    && (forall a, b, c :: leq(a, b) && leq(b, c) ==> leq(a, c))
  }

  ghost predicate SortedBy<T>(leq: (T, T) -> bool, s: seq<T>) {
    forall i, j :: 0 <= i < j < |s| ==> leq(s[i], s[j])
  }

  function Insert<T>(leq: (T, T) -> bool, x: T, s: seq<T>): (r: seq<T>)
    ensures multiset(r) == multiset(s) + multiset{x}
  {
    if s == [] || leq(x, s[0]) then [x] + s
    else
      assert s == [s[0]] + s[1..];
      [s[0]] + Insert(leq, x, s[1..])
  }

  function Sort<T>(leq: (T, T) -> bool, s: seq<T>): (r: seq<T>)
    ensures multiset(r) == multiset(s)
  {
    if s == [] then []
    else
      assert s == [s[0]] + s[1..];
      Insert(leq, s[0], Sort(leq, s[1..]))
  }

  lemma SameMembers<T>(a: seq<T>, b: seq<T>)
    requires multiset(a) == multiset(b)
    ensures |a| == |b| && forall x :: x in a <==> x in b
  {
    assert |multiset(a)| == |a| && |multiset(b)| == |b|;
    forall x
      ensures x in a <==> x in b
    {
      assert x in a <==> x in multiset(a);
      assert x in b <==> x in multiset(b);
    }
  }

  lemma SortedCons<T(!new)>(leq: (T, T) -> bool, x: T, s: seq<T>)
    requires SortedBy(leq, s) && forall y :: y in s ==> leq(x, y)
    ensures SortedBy(leq, [x] + s)
  {
    var r := [x] + s;
    forall i, j | 0 <= i < j < |r|
      ensures leq(r[i], r[j])
    {
      assert r[j] == s[j - 1];
      if i > 0 { assert r[i] == s[i - 1]; }
    }
  }

  lemma {:induction false} InsertSorts<T(!new)>(leq: (T, T) -> bool, x: T, s: seq<T>)
    requires TotalOrder(leq) && SortedBy(leq, s)
    ensures SortedBy(leq, Insert(leq, x, s))
  {
    if s == [] {
    } else if leq(x, s[0]) {
      forall y | y in s
        ensures leq(x, y)
      {
        var i :| 0 <= i < |s| && s[i] == y;
        if i > 0 { assert leq(s[0], s[i]); }
      }
      SortedCons(leq, x, s);
    } else {
      var rest := s[1..];
      InsertSorts(leq, x, rest);
      SameMembers(Insert(leq, x, rest), rest + [x]);
      forall y | y in Insert(leq, x, rest)
        ensures leq(s[0], y)
      {
        if y in rest {
          var i :| 0 <= i < |rest| && rest[i] == y;
          assert leq(s[0], s[i + 1]);
        }
      }
      SortedCons(leq, s[0], Insert(leq, x, rest));
    }
  }

  lemma {:induction false} SortSorts<T(!new)>(leq: (T, T) -> bool, s: seq<T>)
    requires TotalOrder(leq)
    ensures SortedBy(leq, Sort(leq, s))
  {
    if s != [] {
      SortSorts(leq, s[1..]);
      InsertSorts(leq, s[0], Sort(leq, s[1..]));
    }
  }

  lemma TailElements<T>(s: seq<T>)
    requires s != []
    ensures multiset(s[1..]) == multiset(s) - multiset{s[0]}
  {
    assert s == [s[0]] + s[1..];
  }

  /** Two sorted arrangements of the same elements are the same sequence, whatever algorithm made them. */
  lemma {:induction false} SortedUnique<T(!new)>(leq: (T, T) -> bool, a: seq<T>, b: seq<T>)
    requires TotalOrder(leq) && SortedBy(leq, a) && SortedBy(leq, b) && multiset(a) == multiset(b)
    ensures a == b
  {
    SameMembers(a, b);
    if a != [] {
      assert a[0] in b && b[0] in a;
      assert leq(a[0], b[0]) by {
        var i :| 0 <= i < |a| && a[i] == b[0];
        if i > 0 { assert leq(a[0], a[i]); }
      }
      assert leq(b[0], a[0]) by {
        var i :| 0 <= i < |b| && b[i] == a[0];
        if i > 0 { assert leq(b[0], b[i]); }
      }
      TailElements(a);
      TailElements(b);
      SortedUnique(leq, a[1..], b[1..]);
    }
  }

  lemma SortDependsOnElements<T(!new)>(leq: (T, T) -> bool, a: seq<T>, b: seq<T>)
    requires TotalOrder(leq)
    ensures Sort(leq, a) == Sort(leq, b) <==> multiset(a) == multiset(b)
  {
    if multiset(a) == multiset(b) {
      SortSorts(leq, a);
      SortSorts(leq, b);
      SortedUnique(leq, Sort(leq, a), Sort(leq, b));
    }
  }

  // ---- Sets in order

  ghost predicate NoDuplicates<T>(s: seq<T>) {
    forall i, j :: 0 <= i < j < |s| ==> s[i] != s[j]
  }

  /** `dedup`: drops an element equal to the one before it. */
  function Dedup<T(==)>(s: seq<T>): seq<T> {
    if |s| < 2 then s
    else if s[0] == s[1] then Dedup(s[1..])
    else [s[0]] + Dedup(s[1..])
  }

  lemma {:induction false} DedupKeeps<T(!new)>(leq: (T, T) -> bool, s: seq<T>)
    requires TotalOrder(leq) && SortedBy(leq, s)
    ensures forall x :: x in Dedup(s) <==> x in s
    ensures SortedBy(leq, Dedup(s)) && NoDuplicates(Dedup(s))
    ensures s != [] ==> Dedup(s) != [] && Dedup(s)[0] == s[0]
  {
    if |s| >= 2 {
      var rest := s[1..];
      assert s == [s[0]] + rest;
      DedupKeeps(leq, rest);
      if s[0] != s[1] {
        var d := Dedup(rest);
        forall y | y in d
          ensures leq(s[0], y) && y != s[0]
        {
          assert y in rest;
          var i :| 1 <= i < |s| && s[i] == y;
          assert leq(s[0], s[i]) && leq(s[0], s[1]) && (i > 1 ==> leq(s[1], s[i]));
        }
        SortedCons(leq, s[0], d);
        assert forall i :: 0 <= i < |d| ==> d[i] in d;
      }
    }
  }

  lemma {:induction false} DistinctMultiset<T(!new)>(s: seq<T>)
    requires NoDuplicates(s)
    ensures multiset(s) == multiset(set x | x in s)
  {
    forall x
      ensures multiset(s)[x] == if x in s then 1 else 0
    {
      CountDistinct(s, x);
    }
  }

  lemma {:induction false} CountDistinct<T>(s: seq<T>, x: T)
    requires NoDuplicates(s)
    ensures multiset(s)[x] == if x in s then 1 else 0
  {
    if s != [] {
      assert s == [s[0]] + s[1..];
      CountDistinct(s[1..], x);
      assert forall i :: 0 <= i < |s[1..]| ==> s[1..][i] == s[i + 1];
    }
  }

  lemma SortedSetUnique<T(!new)>(leq: (T, T) -> bool, a: seq<T>, b: seq<T>)
    requires TotalOrder(leq) && SortedBy(leq, a) && SortedBy(leq, b) && NoDuplicates(a) && NoDuplicates(b)
    requires forall x :: x in a <==> x in b
    ensures a == b
  {
    DistinctMultiset(a);
    DistinctMultiset(b);
    assert (set x | x in a) == (set x | x in b);
    SortedUnique(leq, a, b);
  }
}
