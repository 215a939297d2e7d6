// `sorted` with a key of two numbers, compared lexicographically.
module Sorting {
  import opened Sequences

  datatype Rank = Rank(major: nat, minor: nat)

  predicate Before(a: Rank, b: Rank) {
    a.major < b.major || (a.major == b.major && a.minor < b.minor)
  }

  function Insert<T>(x: T, s: seq<T>, rank: T -> Rank): seq<T> {
    if s != [] && Before(rank(x), rank(s[|s| - 1])) then Insert(x, s[..|s| - 1], rank) + [s[|s| - 1]]
    else s + [x]
  }

  function SortBy<T>(s: seq<T>, rank: T -> Rank): seq<T> {
    if s == [] then [] else Insert(s[|s| - 1], SortBy(s[..|s| - 1], rank), rank)
  }

  predicate Rising<T>(s: seq<T>, rank: T -> Rank) {
    forall i, j :: 0 <= i < j < |s| ==> Before(rank(s[i]), rank(s[j]))
  }

  predicate RanksDiffer<T>(s: seq<T>, rank: T -> Rank) {
    forall i, j :: 0 <= i < j < |s| ==> rank(s[i]) != rank(s[j])
  }

  lemma {:induction false} InsertBelow<T>(x: T, s: seq<T>, rank: T -> Rank, bound: Rank)
    requires Before(rank(x), bound) && forall i :: 0 <= i < |s| ==> Before(rank(s[i]), bound)
    ensures forall i :: 0 <= i < |Insert(x, s, rank)| ==> Before(rank(Insert(x, s, rank)[i]), bound)
  {
    if s != [] && Before(rank(x), rank(s[|s| - 1])) {
      InsertBelow(x, s[..|s| - 1], rank, bound);
    }
  }

  lemma {:induction false} InsertMultiset<T>(x: T, s: seq<T>, rank: T -> Rank)
    ensures multiset(Insert(x, s, rank)) == multiset(s) + multiset{x}
  {
    if s != [] && Before(rank(x), rank(s[|s| - 1])) {
      InsertMultiset(x, s[..|s| - 1], rank);
      assert s == s[..|s| - 1] + [s[|s| - 1]];
    }
  }

  lemma {:induction false} InsertRising<T>(x: T, s: seq<T>, rank: T -> Rank)
    requires Rising(s, rank) && forall i :: 0 <= i < |s| ==> rank(s[i]) != rank(x)
    ensures Rising(Insert(x, s, rank), rank)
  {
    if s != [] && Before(rank(x), rank(s[|s| - 1])) {
      InsertRising(x, s[..|s| - 1], rank);
      InsertBelow(x, s[..|s| - 1], rank, rank(s[|s| - 1]));
    }
  }

  lemma InsertOk<T>(x: T, s: seq<T>, rank: T -> Rank)
    requires Rising(s, rank) && forall i :: 0 <= i < |s| ==> rank(s[i]) != rank(x)
    ensures multiset(Insert(x, s, rank)) == multiset(s) + multiset{x}
    ensures Rising(Insert(x, s, rank), rank)
  {
    InsertMultiset(x, s, rank);
    InsertRising(x, s, rank);
  }

  lemma {:induction false} SortByMultiset<T>(s: seq<T>, rank: T -> Rank)
    ensures multiset(SortBy(s, rank)) == multiset(s)
  {
    hide Insert;
    if s != [] {
      var shorter, last := s[..|s| - 1], s[|s| - 1];
      SortByMultiset(shorter, rank);
      InsertMultiset(last, SortBy(shorter, rank), rank);
      assert s == shorter + [last];
    }
  }

  lemma {:induction false} SortByOk<T>(s: seq<T>, rank: T -> Rank)
    requires RanksDiffer(s, rank)
    ensures multiset(SortBy(s, rank)) == multiset(s) && Rising(SortBy(s, rank), rank)
  {
    if s != [] {
      var shorter, last := s[..|s| - 1], s[|s| - 1];
      SortByOk(shorter, rank);
      assert s == shorter + [last];
      var t := SortBy(shorter, rank);
      forall i | 0 <= i < |t|
        ensures rank(t[i]) != rank(last)
      {
        assert t[i] in multiset(shorter);
      }
      InsertOk(last, t, rank);
    }
  }

  lemma DropLast<T>(s: seq<T>)
    requires s != []
    ensures multiset(s[..|s| - 1]) == multiset(s) - multiset{s[|s| - 1]}
  {
    assert s == s[..|s| - 1] + [s[|s| - 1]];
  }

  lemma LastGreatest<T>(s: seq<T>, x: T, rank: T -> Rank)
    requires s != [] && Rising(s, rank) && x in multiset(s)
    ensures x == s[|s| - 1] || Before(rank(x), rank(s[|s| - 1]))
  {
    var k :| 0 <= k < |s| && s[k] == x;
  }

  lemma SameLast<T>(a: seq<T>, b: seq<T>, rank: T -> Rank)
    requires a != [] && b != [] && multiset(a) == multiset(b) && Rising(a, rank) && Rising(b, rank)
    ensures a[|a| - 1] == b[|b| - 1]
  {
    var x, y := a[|a| - 1], b[|b| - 1];
    assert x in multiset(a) && y in multiset(b);
    LastGreatest(a, y, rank);
    LastGreatest(b, x, rank);
  }

  lemma {:induction false} RisingUnique<T>(a: seq<T>, b: seq<T>, rank: T -> Rank)
    requires multiset(a) == multiset(b) && Rising(a, rank) && Rising(b, rank)
    ensures a == b
    decreases |a|
  {
    assert |a| == |multiset(a)| == |multiset(b)| == |b|;
    if a != [] {
      SameLast(a, b, rank);
      DropLast(a);
      DropLast(b);
      RisingUnique(a[..|a| - 1], b[..|b| - 1], rank);
      hide Rising;
      assert a == a[..|a| - 1] + [a[|a| - 1]] && b == b[..|b| - 1] + [b[|b| - 1]];
    }
  }

  // Sorting forgets the order of its input.
  lemma SortByPermutes<T>(a: seq<T>, b: seq<T>, rank: T -> Rank)
    requires multiset(a) == multiset(b) && RanksDiffer(a, rank) && RanksDiffer(b, rank)
    ensures SortBy(a, rank) == SortBy(b, rank)
  {
    SortByOk(a, rank);
    SortByOk(b, rank);
    RisingUnique(SortBy(a, rank), SortBy(b, rank), rank);
  }
}
