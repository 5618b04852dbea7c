// Stable sorting of sequences by a strict weak order, as `Array.prototype.sort` does it.
module Sorting {

  function Insert<T>(x: T, s: seq<T>, less: (T, T) -> bool): seq<T> {
    if s == [] || !less(s[0], x) then [x] + s else [s[0]] + Insert(x, s[1..], less)
  }

  function Sort<T>(s: seq<T>, less: (T, T) -> bool): seq<T> {
    if s == [] then [] else Insert(s[0], Sort(s[1..], less), less)
  }

  ghost predicate Orders<T(!new)>(less: (T, T) -> bool) {
    && (forall a, b :: less(a, b) ==> !less(b, a))
    && (forall a, b, c :: !less(b, a) && !less(c, b) ==> !less(c, a))
  }

  ghost predicate Sorted<T>(s: seq<T>, less: (T, T) -> bool) {
    forall i, j :: 0 <= i < j < |s| ==> !less(s[j], s[i])
  }

  lemma {:induction false} InsertPermutes<T>(x: T, s: seq<T>, less: (T, T) -> bool)
    ensures multiset(Insert(x, s, less)) == multiset{x} + multiset(s)
    decreases |s|
  {
    if s != [] && less(s[0], x) {
      InsertPermutes(x, s[1..], less);
      assert s == [s[0]] + s[1..];
    }
  }

  lemma {:induction false} SortPermutes<T>(s: seq<T>, less: (T, T) -> bool)
    ensures multiset(Sort(s, less)) == multiset(s) && |Sort(s, less)| == |s|
    decreases |s|
  {
    if s != [] {
      SortPermutes(s[1..], less);
      InsertPermutes(s[0], Sort(s[1..], less), less);
      assert s == [s[0]] + s[1..];
    }
    assert |multiset(Sort(s, less))| == |multiset(s)|;
  }

  lemma {:induction false} InsertSorts<T(!new)>(x: T, s: seq<T>, less: (T, T) -> bool)
    requires Orders(less) && Sorted(s, less)
    ensures Sorted(Insert(x, s, less), less)
    decreases |s|
  {
    if s != [] && less(s[0], x) {
      InsertSorts(x, s[1..], less);
      var r := Insert(x, s[1..], less);
      InsertPermutes(x, s[1..], less);
      forall j | 0 <= j < |r| ensures !less(r[j], s[0]) {
        assert r[j] in multiset(r);
        if r[j] != x { assert r[j] in s[1..]; }
      }
    } else if s != [] {
      forall j | 0 <= j < |s| ensures !less(s[j], x) {
        assert j > 0 ==> !less(s[j], s[0]);
      }
    }
  }

  lemma {:induction false} SortSorts<T(!new)>(s: seq<T>, less: (T, T) -> bool)
    requires Orders(less)
    ensures Sorted(Sort(s, less), less)
    decreases |s|
  {
    if s != [] {
      SortSorts(s[1..], less);
      InsertSorts(s[0], Sort(s[1..], less), less);
    }
  }

  lemma SortKeepsMembers<T>(s: seq<T>, less: (T, T) -> bool)
    ensures forall x :: x in Sort(s, less) <==> x in s
  {
    SortPermutes(s, less);
    assert forall x :: x in Sort(s, less) <==> x in multiset(Sort(s, less));
  }

  ghost predicate Distinct<T>(s: seq<T>) {
    forall i, j :: 0 <= i < j < |s| ==> s[i] != s[j]
  }

  lemma DistinctTail<T>(s: seq<T>)
    requires s != []
    ensures Distinct(s) <==> s[0] !in s[1..] && Distinct(s[1..])
  {
    var t := s[1..];
    assert s == [s[0]] + t;
    assert forall i :: 0 <= i < |t| ==> t[i] == s[i + 1];
    assert forall i :: 1 <= i < |s| ==> s[i] == t[i - 1];
  }

  lemma {:induction false} DistinctCounts<T>(s: seq<T>)
    ensures Distinct(s) <==> forall x :: x in s ==> multiset(s)[x] == 1
    decreases |s|
  {
    hide Distinct;
    if s == [] {
      assert Distinct(s) by { NothingRepeats(s); }
    } else {
      var t := s[1..];
      assert s == [s[0]] + t;
      DistinctCounts(t);
      DistinctTail(s);
      assert multiset(s) == multiset{s[0]} + multiset(t);
      assert forall x :: x in s <==> x == s[0] || x in t;
      assert s[0] in t <==> multiset(t)[s[0]] > 0;
    }
  }

  lemma NothingRepeats<T>(s: seq<T>)
    requires s == []
    ensures Distinct(s)
  {
  }

  lemma SortKeepsDistinct<T>(s: seq<T>, less: (T, T) -> bool)
    requires Distinct(s)
    ensures Distinct(Sort(s, less))
  {
    SortPermutes(s, less);
    SortKeepsMembers(s, less);
    DistinctCounts(s);
    DistinctCounts(Sort(s, less));
  }
}
