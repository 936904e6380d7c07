/**
  Stable insertion sort under a total preorder. It gives the order of an SQL `ORDER BY` (where
  ties may come out in any order, so any sorted permutation is a faithful answer) and of
  JavaScript's `Array.prototype.sort`, which is stable.
*/
module Sorting {

  /** `le` is reflexive through totality, total and transitive. */
  ghost predicate TotalPreorder<T(!new)>(le: (T, T) -> bool) {
    && (forall a, b :: le(a, b) || le(b, a))
    && (forall a, b, c :: le(a, b) && le(b, c) ==> le(a, c))
  }

  predicate SortedBy<T>(s: seq<T>, le: (T, T) -> bool) {
    forall i, j | 0 <= i < j < |s| :: le(s[i], s[j])
  }

  /** Puts `x` before the first element it does not follow. */
  function Insert<T>(x: T, s: seq<T>, le: (T, T) -> bool): (r: seq<T>)
    ensures multiset(r) == multiset(s) + multiset{x}
    ensures |r| == |s| + 1
  {
    if s == [] then [x]
    else if le(x, s[0]) then [x] + s
    else
      assert s == [s[0]] + s[1..];
      [s[0]] + Insert(x, s[1..], le)
  }

  /** Inserting into a sorted sequence keeps it sorted. */
  lemma {:induction false} InsertSorted<T(!new)>(x: T, s: seq<T>, le: (T, T) -> bool)
    requires TotalPreorder(le) && SortedBy(s, le)
    ensures SortedBy(Insert(x, s, le), le)
  {
    if s != [] && !le(x, s[0]) {
      var rest := Insert(x, s[1..], le);
      InsertSorted(x, s[1..], le);
      HeadPrecedes(x, s, le, rest);
    }
  }

  /** The head of a sorted sequence precedes its tail and anything it does not follow. */
  lemma HeadPrecedes<T(!new)>(x: T, s: seq<T>, le: (T, T) -> bool, rest: seq<T>)
    requires TotalPreorder(le) && SortedBy(s, le) && s != [] && !le(x, s[0])
    requires multiset(rest) == multiset(s[1..]) + multiset{x}
    ensures forall k | 0 <= k < |rest| :: le(s[0], rest[k])
  {
    forall k | 0 <= k < |rest|
      ensures le(s[0], rest[k])
    {
      assert rest[k] in multiset(rest);
      if rest[k] != x {
        assert rest[k] in multiset(s[1..]);
        var j :| 0 <= j < |s[1..]| && s[1..][j] == rest[k];
        assert s[j + 1] == rest[k];
      }
    }
  }

  /** Sorts by inserting each element, last first, into the sorted rest. */
  function InsertionSort<T(!new)>(s: seq<T>, le: (T, T) -> bool): (r: seq<T>)
    requires TotalPreorder(le)
    ensures SortedBy(r, le)
    ensures multiset(r) == multiset(s)
    ensures |r| == |s|
  {
    if s == [] then []
    else
      assert s == [s[0]] + s[1..];
      var rest := InsertionSort(s[1..], le);
      InsertSorted(s[0], rest, le);
      Insert(s[0], rest, le)
  }

  /** `a` and `b` sort alike: neither comes strictly before the other. */
  predicate Equivalent<T>(a: T, b: T, le: (T, T) -> bool) {
    le(a, b) && le(b, a)
  }

  /** The elements of `s` that sort alike with `e`, in their order in `s`. */
  function EquivalentsOf<T>(s: seq<T>, e: T, le: (T, T) -> bool): seq<T> {
    if s == [] then []
    else (if Equivalent(s[0], e, le) then [s[0]] else []) + EquivalentsOf(s[1..], e, le)
  }

  /**
    Inserting puts `x` ahead of the elements that sort alike with it; this needs only that `le`
    chains through `e`.
  */
  lemma {:induction false} InsertKeepsOrder<T>(x: T, s: seq<T>, e: T, le: (T, T) -> bool)
    requires forall a, b :: le(a, e) && le(e, b) ==> le(a, b)
    ensures EquivalentsOf(Insert(x, s, le), e, le)
         == (if Equivalent(x, e, le) then [x] else []) + EquivalentsOf(s, e, le)
    decreases |s|
  {
    if s == [] {
      EquivalentsOfCons(x, [], e, le);
      assert [x] + [] == [x];
    } else if le(x, s[0]) {
      EquivalentsOfCons(x, s, e, le);
    } else {
      InsertKeepsOrder(x, s[1..], e, le);
      InsertPastHead(x, s, e, le);
    }
  }

  /** When `x` goes past the head, the head and `x` cannot both sort alike with `e`. */
  lemma InsertPastHead<T>(x: T, s: seq<T>, e: T, le: (T, T) -> bool)
    requires forall a, b :: le(a, e) && le(e, b) ==> le(a, b)
    requires s != [] && !le(x, s[0])
    requires EquivalentsOf(Insert(x, s[1..], le), e, le)
         == (if Equivalent(x, e, le) then [x] else []) + EquivalentsOf(s[1..], e, le)
    ensures EquivalentsOf(Insert(x, s, le), e, le)
         == (if Equivalent(x, e, le) then [x] else []) + EquivalentsOf(s, e, le)
  {
    var rest := Insert(x, s[1..], le);
    var front := if Equivalent(s[0], e, le) then [s[0]] else [];
    var mine := if Equivalent(x, e, le) then [x] else [];
    var tail := EquivalentsOf(s[1..], e, le);
    assert Insert(x, s, le) == [s[0]] + rest;
    EquivalentsOfCons(s[0], rest, e, le);
    assert EquivalentsOf(s, e, le) == front + tail;
    assert front == [] || mine == [];
    SwapEmpty(front, mine, tail);
  }

  lemma SwapEmpty<T>(f: seq<T>, m: seq<T>, t: seq<T>)
    requires f == [] || m == []
    ensures f + (m + t) == m + (f + t)
  {}

  lemma EquivalentsOfCons<T>(a: T, t: seq<T>, e: T, le: (T, T) -> bool)
    ensures EquivalentsOf([a] + t, e, le) == (if Equivalent(a, e, le) then [a] else []) + EquivalentsOf(t, e, le)
  {
    assert ([a] + t)[1..] == t;
  }

  /** The sort is stable: elements that sort alike keep their original order. */
  lemma {:induction false} SortIsStable<T(!new)>(s: seq<T>, e: T, le: (T, T) -> bool)
    requires TotalPreorder(le)
    ensures EquivalentsOf(InsertionSort(s, le), e, le) == EquivalentsOf(s, e, le)
  {
    if s != [] {
      SortIsStable(s[1..], e, le);
      InsertKeepsOrder(s[0], InsertionSort(s[1..], le), e, le);
    }
  }
}
