/** Stable sorting by a strict weak order, as sort.SliceStable and sort.Strings provide it. */
module Sorting {
  import opened Foundation

  ghost predicate StrictWeakOrder<T(!new)>(less: (T, T) -> bool) {
    && (forall a :: !less(a, a))
    && (forall a, b, c :: less(a, b) && less(b, c) ==> less(a, c))
    && (forall a, b, c :: less(a, c) ==> less(a, b) || less(b, c))
  }

  /** No later element is strictly less than an earlier one. */
  ghost predicate Sorted<T>(less: (T, T) -> bool, s: seq<T>) {
    forall i, j :: 0 <= i < j < |s| ==> !less(s[j], s[i])
  }

  /** Insert behind the elements that are not greater: the new element came later. */
  function Insert<T>(less: (T, T) -> bool, s: seq<T>, x: T): (r: seq<T>)
    ensures multiset(r) == multiset(s) + multiset{x}
    decreases |s|
  {
    if s != [] && less(x, s[|s| - 1]) then
      assert s == s[..|s| - 1] + [s[|s| - 1]];
      Insert(less, s[..|s| - 1], x) + [s[|s| - 1]]
    else
      s + [x]
  }

  function StableSort<T>(less: (T, T) -> bool, s: seq<T>): (r: seq<T>)
    ensures multiset(r) == multiset(s)
    decreases |s|
  {
    if s == [] then []
    else
      assert s == s[..|s| - 1] + [s[|s| - 1]];
      Insert(less, StableSort(less, s[..|s| - 1]), s[|s| - 1])
  }

  lemma {:induction false} InsertSorted<T(!new)>(less: (T, T) -> bool, s: seq<T>, x: T)
    requires StrictWeakOrder(less) && Sorted(less, s)
    ensures Sorted(less, Insert(less, s, x))
    decreases |s|
  {
    if s != [] && less(x, s[|s| - 1]) {
      var front, last := s[..|s| - 1], s[|s| - 1];
      InsertSorted(less, front, x);
      var r := Insert(less, front, x);
      forall i | 0 <= i < |r| ensures !less(last, r[i]) {
        assert r[i] in multiset(r);
        assert r[i] in multiset(front) || r[i] == x;
      }
    } else {
      forall i | 0 <= i < |s| ensures !less(x, s[i]) {
        if i < |s| - 1 { assert !less(s[|s| - 1], s[i]); }
      }
    }
  }

  lemma {:induction false} StableSortSorted<T(!new)>(less: (T, T) -> bool, s: seq<T>)
    requires StrictWeakOrder(less)
    ensures Sorted(less, StableSort(less, s))
    decreases |s|
  {
    if s != [] {
      StableSortSorted(less, s[..|s| - 1]);
      InsertSorted(less, StableSort(less, s[..|s| - 1]), s[|s| - 1]);
    }
  }

  /** Distinct elements of s are ordered one way or the other. */
  ghost predicate Separates<T>(less: (T, T) -> bool, s: seq<T>) {
    forall a, b :: a in s && b in s && a != b ==> less(a, b) || less(b, a)
  }

  lemma SameHead<T>(less: (T, T) -> bool, s: seq<T>, t: seq<T>)
    requires s != [] && t != []
    requires Separates(less, s) && Sorted(less, s) && Sorted(less, t)
    requires multiset(s) == multiset(t)
    ensures s[0] == t[0]
  {
    assert t[0] in multiset(s) && s[0] in multiset(t);
    var i :| 0 <= i < |s| && s[i] == t[0];
    var j :| 0 <= j < |t| && t[j] == s[0];
    assert i == 0 || !less(s[i], s[0]);
    assert j == 0 || !less(t[j], t[0]);
  }

  /** Under an order that separates distinct elements, a sorted sequence is determined by its elements. */
  lemma {:induction false} OneSortedOrder<T>(less: (T, T) -> bool, s: seq<T>, t: seq<T>)
    requires Separates(less, s) && Sorted(less, s) && Sorted(less, t)
    requires multiset(s) == multiset(t)
    ensures s == t
    decreases |s|
  {
    assert |multiset(s)| == |s| && |multiset(t)| == |t|;
    if s != [] {
      SameHead(less, s, t);
      assert s == [s[0]] + s[1..] && t == [t[0]] + t[1..];
      assert multiset(s[1..]) == multiset(s) - multiset{s[0]};
      assert multiset(t[1..]) == multiset(t) - multiset{t[0]};
      OneSortedOrder(less, s[1..], t[1..]);
    }
  }

  // ---- The first match of a stably sorted sequence ----

  function FirstOf<T>(p: T -> bool, s: seq<T>): Option<T>
    decreases |s|
  {
    if s == [] then None else if p(s[0]) then Some(s[0]) else FirstOf(p, s[1..])
  }

  lemma {:induction false} FirstAppend<T>(p: T -> bool, s: seq<T>, x: T)
    ensures FirstOf(p, s + [x]) == if FirstOf(p, s).Some? then FirstOf(p, s) else if p(x) then Some(x) else None
    decreases |s|
  {
    if s == [] {
      assert (s + [x])[1..] == [];
    } else {
      assert (s + [x])[1..] == s[1..] + [x];
      FirstAppend(p, s[1..], x);
    }
  }

  lemma {:induction false} FirstIsIn<T>(p: T -> bool, s: seq<T>)
    ensures FirstOf(p, s).Some? ==> FirstOf(p, s).value in s && p(FirstOf(p, s).value)
    ensures FirstOf(p, s).None? ==> forall x :: x in s ==> !p(x)
    decreases |s|
  {
    if s != [] { FirstIsIn(p, s[1..]); }
  }

  /** Inserting changes the first match only to the new element, and only if that comes strictly before it. */
  lemma {:induction false} FirstAfterInsert<T(!new)>(less: (T, T) -> bool, p: T -> bool, s: seq<T>, x: T)
    requires StrictWeakOrder(less) && Sorted(less, s)
    ensures var f := FirstOf(p, s);
            FirstOf(p, Insert(less, s, x)) == if p(x) && (f.None? || less(x, f.value)) then Some(x) else f
    decreases |s|
  {
    if s != [] && less(x, s[|s| - 1]) {
      var front, last := s[..|s| - 1], s[|s| - 1];
      assert s == front + [last];
      FirstAppend(p, front, last);
      FirstAfterInsert(less, p, front, x);
      FirstAppend(p, Insert(less, front, x), last);
    } else {
      FirstAppend(p, s, x);
      FirstIsIn(p, s);
      if FirstOf(p, s).Some? {
        var i :| 0 <= i < |s| && s[i] == FirstOf(p, s).value;
        assert i == |s| - 1 || !less(s[|s| - 1], s[i]);
      }
    }
  }

  /** The first match of the sorted sequence, read off the unsorted one. */
  function Best<T>(less: (T, T) -> bool, p: T -> bool, s: seq<T>): Option<T>
    decreases |s|
  {
    if s == [] then None
    else
      var b, x := Best(less, p, s[..|s| - 1]), s[|s| - 1];
      if p(x) && (b.None? || less(x, b.value)) then Some(x) else b
  }

  lemma {:induction false} FirstOfSortIsBest<T(!new)>(less: (T, T) -> bool, p: T -> bool, s: seq<T>)
    requires StrictWeakOrder(less)
    ensures FirstOf(p, StableSort(less, s)) == Best(less, p, s)
    decreases |s|
  {
    if s != [] {
      var front := s[..|s| - 1];
      FirstOfSortIsBest(less, p, front);
      StableSortSorted(less, front);
      FirstAfterInsert(less, p, StableSort(less, front), s[|s| - 1]);
    }
  }

  /** x stands at i, matches, and comes strictly before every earlier match and not after any later one. */
  ghost predicate FirstAmongBest<T>(less: (T, T) -> bool, p: T -> bool, s: seq<T>, i: int, x: T) {
    && 0 <= i < |s| && s[i] == x && p(x)
    && (forall j :: 0 <= j < i && p(s[j]) ==> less(x, s[j]))
    && (forall j :: i < j < |s| && p(s[j]) ==> !less(s[j], x))
  }

  /** So the first match is a least one, and of several equally good ones the one listed first. */
  lemma {:induction false} BestIsFirstAmongBest<T(!new)>(less: (T, T) -> bool, p: T -> bool, s: seq<T>)
    requires StrictWeakOrder(less)
    ensures Best(less, p, s).None? <==> forall j :: 0 <= j < |s| ==> !p(s[j])
    ensures Best(less, p, s).Some? ==> exists i :: FirstAmongBest(less, p, s, i, Best(less, p, s).value)
    decreases |s|
  {
    if s != [] {
      var front, n := s[..|s| - 1], |s| - 1;
      BestIsFirstAmongBest(less, p, front);
      assert forall j :: 0 <= j < n ==> s[j] == front[j];
      var b := Best(less, p, front);
      if b.Some? {
        var i :| FirstAmongBest(less, p, front, i, b.value);
        if p(s[n]) && less(s[n], b.value) {
          forall j | 0 <= j < n && p(s[j]) ensures less(s[n], s[j]) {
            if j == i {
            } else {
              assert front[j] == s[j];
              assert !less(front[j], b.value);
            }
          }
          assert FirstAmongBest(less, p, s, n, s[n]);
        } else {
          assert FirstAmongBest(less, p, s, i, b.value);
        }
      } else if p(s[n]) {
        assert FirstAmongBest(less, p, s, n, s[n]);
      }
    }
  }
}
