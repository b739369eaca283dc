/** Rust's stable `sort_by_key`, as insertion of one element after another. */
module Sorting {

  ghost predicate TotalPreorder<T(!new)>(leq: (T, T) -> bool) {
    && (forall x, y :: leq(x, y) || leq(y, x))
    && (forall x, y, z :: leq(x, y) && leq(y, z) ==> leq(x, z))
  }

  /** Puts `x` behind every element that is not greater. */
  function Insert<T>(s: seq<T>, x: T, leq: (T, T) -> bool): (r: seq<T>)
    ensures multiset(r) == multiset(s) + multiset{x}
    ensures |r| == |s| + 1
  {
    if s == [] || leq(s[|s| - 1], x) then s + [x]
    else
      assert s == s[..|s| - 1] + [s[|s| - 1]];
      Insert(s[..|s| - 1], x, leq) + [s[|s| - 1]]
  }

  function StableSort<T>(s: seq<T>, leq: (T, T) -> bool): (r: seq<T>)
    ensures multiset(r) == multiset(s)
    ensures |r| == |s|
  {
    if s == [] then []
    else
      assert s == s[..|s| - 1] + [s[|s| - 1]];
      Insert(StableSort(s[..|s| - 1], leq), s[|s| - 1], leq)
  }

  /** Sorted, and elements of equal rank keep the order `before` gives them. */
  ghost predicate StablySorted<T(!new)>(s: seq<T>, leq: (T, T) -> bool, before: (T, T) -> bool) {
    forall i, j :: 0 <= i < j < |s| ==> leq(s[i], s[j]) && (leq(s[j], s[i]) ==> before(s[i], s[j]))
  }

  lemma {:induction false} InsertKeepsOrder<T(!new)>(s: seq<T>, x: T, leq: (T, T) -> bool, before: (T, T) -> bool)
    requires TotalPreorder(leq)
    requires StablySorted(s, leq, before)
    requires forall y :: y in s ==> before(y, x)
    ensures StablySorted(Insert(s, x, leq), leq, before)
  {
    var r := Insert(s, x, leq);
    if s == [] {
    } else if leq(s[|s| - 1], x) {
      forall i, j | 0 <= i < j < |r|
        ensures leq(r[i], r[j]) && (leq(r[j], r[i]) ==> before(r[i], r[j]))
      {
        if j == |s| {
          assert leq(r[i], s[|s| - 1]);
        }
      }
    } else {
      var front, last := s[..|s| - 1], s[|s| - 1];
      InsertKeepsOrder(front, x, leq, before);
      var t := Insert(front, x, leq);
      forall i, j | 0 <= i < j < |r|
        ensures leq(r[i], r[j]) && (leq(r[j], r[i]) ==> before(r[i], r[j]))
      {
        if j == |t| {
          assert r[i] in multiset(t);
          if r[i] in front {
            var k :| 0 <= k < |front| && front[k] == r[i];
            assert s[k] == r[i] && s[|s| - 1] == last;
          } else {
            assert r[i] == x;
          }
        } else {
          assert r[i] == t[i] && r[j] == t[j];
        }
      }
    }
  }

  lemma {:induction false} StableSortOrders<T(!new)>(s: seq<T>, leq: (T, T) -> bool, before: (T, T) -> bool)
    requires TotalPreorder(leq)
    requires forall i, j :: 0 <= i < j < |s| ==> before(s[i], s[j])
    ensures StablySorted(StableSort(s, leq), leq, before)
  {
    if s != [] {
      var front, last := s[..|s| - 1], s[|s| - 1];
      StableSortOrders(front, leq, before);
      forall y | y in StableSort(front, leq)
        ensures before(y, last)
      {
        assert y in multiset(front);
        var k :| 0 <= k < |front| && front[k] == y;
        assert s[k] == y && s[|s| - 1] == last;
      }
      InsertKeepsOrder(StableSort(front, leq), last, leq, before);
    }
  }

  lemma SortStep<T>(front: seq<T>, last: T, leq: (T, T) -> bool)
    ensures StableSort(front + [last], leq) == Insert(StableSort(front, leq), last, leq)
  {
    assert (front + [last])[..|front|] == front;
  }

  lemma InsertAtEnd<T>(s: seq<T>, x: T, leq: (T, T) -> bool)
    requires s == [] || leq(s[|s| - 1], x)
    ensures Insert(s, x, leq) == s + [x]
  {
  }

  ghost predicate Ordered<T>(s: seq<T>, leq: (T, T) -> bool) {
    forall i :: 0 < i < |s| ==> leq(s[i - 1], s[i])
  }

  lemma OrderedFront<T>(s: seq<T>, leq: (T, T) -> bool)
    requires Ordered(s, leq) && s != []
    ensures Ordered(s[..|s| - 1], leq)
    ensures |s| > 1 ==> leq(s[|s| - 2], s[|s| - 1])
  {
  }

  /** What is sorted stays as it is. */
  lemma {:induction false} SortedStays<T>(s: seq<T>, leq: (T, T) -> bool)
    requires Ordered(s, leq)
    ensures StableSort(s, leq) == s
  {
    hide Ordered, StableSort, Insert;
    if s == [] {
      NothingToSort(leq);
    } else {
      var front, last := s[..|s| - 1], s[|s| - 1];
      OrderedFront(s, leq);
      SortedStays(front, leq);
      assert s == front + [last];
      SortStep(front, last, leq);
      InsertAtEnd(front, last, leq);
    }
  }

  lemma NothingToSort<T>(leq: (T, T) -> bool)
    ensures StableSort([], leq) == []
  {
  }
}
