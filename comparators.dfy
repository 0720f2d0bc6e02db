/**
 * The three-way comparators the thread list is sorted with (`sortByKey` and
 * `compareAnnotationPositons` in src/app.js), and what it takes for a comparator to be
 * consistent.
 */
module Comparators {
  import opened DocumentOrder

  /** `lt` is a strict total order: irreflexive, transitive and connected. */
  ghost predicate StrictTotalOrder<K(!new)>(lt: (K, K) -> bool) {
    && (forall x :: !lt(x, x))
    && (forall x, y, z :: lt(x, y) && lt(y, z) ==> lt(x, z))
    && (forall x, y :: x != y ==> lt(x, y) || lt(y, x))
  }

  /**
   * A consistent three-way comparator: swapping the arguments negates the answer, and
   * "not after" is transitive. This is what a sort needs of the function it is given.
   */
  ghost predicate Comparator<T(!new)>(cmp: (T, T) -> int) {
    && (forall a, b :: cmp(a, b) == -cmp(b, a))
    && (forall a, b, c :: cmp(a, b) <= 0 && cmp(b, c) <= 0 ==> cmp(a, c) <= 0)
  }

  /**
   * The comparator `sortByKey(key, ascending)` builds: compare the two elements' keys with `lt`
   * (the source's `<`; its `valueA > valueB` is `lt(valueB, valueA)`). Whether the key is a
   * property or a method of the element (the source's `func` flag) makes no difference here:
   * `key` is the function from an element to its key either way.
   */
  function SortByKey<T(!new), K>(lt: (K, K) -> bool, key: T -> K, ascending: bool): (cmp: (T, T) -> int)
    ensures forall a, b :: cmp(a, b) == -1 || cmp(a, b) == 0 || cmp(a, b) == 1
  {
    (a: T, b: T) =>
      var valueA := key(a);
      var valueB := key(b);
      if lt(valueA, valueB) then (if ascending then -1 else 1)
      else if lt(valueB, valueA) then (if ascending then 1 else -1)
      else 0
  }

  /** `ascending = false` gives exactly the negation of the ascending comparator. */
  lemma SortByKeyDescendingNegates<T(!new), K>(lt: (K, K) -> bool, key: T -> K, a: T, b: T)
    ensures SortByKey(lt, key, false)(a, b) == -SortByKey(lt, key, true)(a, b)
  {
  }

  /** For totally ordered keys the comparator answers 0 exactly on equal keys, and otherwise
    * says which key is smaller, in the requested direction. */
  lemma SortByKeyMeaning<T(!new), K(!new)>(lt: (K, K) -> bool, key: T -> K, ascending: bool, a: T, b: T)
    requires StrictTotalOrder(lt)
    ensures SortByKey(lt, key, ascending)(a, b) == 0 <==> key(a) == key(b)
    ensures SortByKey(lt, key, ascending)(a, b) == -1 <==>
              (if ascending then lt(key(a), key(b)) else lt(key(b), key(a)))
  {
  }

  lemma SortByKeyAntisymmetric<T(!new), K(!new)>(lt: (K, K) -> bool, key: T -> K, ascending: bool, a: T, b: T)
    requires StrictTotalOrder(lt)
    ensures SortByKey(lt, key, ascending)(a, b) == -SortByKey(lt, key, ascending)(b, a)
  {
  }

  lemma SortByKeyIsComparator<T(!new), K(!new)>(lt: (K, K) -> bool, key: T -> K, ascending: bool)
    requires StrictTotalOrder(lt)
    ensures Comparator(SortByKey(lt, key, ascending))
  {
  }

  function IntLess(x: int, y: int): (less: bool) { x < y }

  lemma IntLessIsStrictTotalOrder()
    ensures StrictTotalOrder(IntLess)
  {
  }

  /**
   * The comparators the "sort by" menu installs for recent, comment, reply-request and star
   * order: `sortByKey` on an integer key (a timestamp or a subtree count), descending.
   */
  lemma DescendingCountIsComparator<T(!new)>(key: T -> int)
    ensures Comparator(SortByKey(IntLess, key, false))
  {
    IntLessIsStrictTotalOrder();
    SortByKeyIsComparator(IntLess, key, false);
  }

  /** Lexicographic order on anchors: by start, then by end. */
  predicate RangeBefore(a: NbRange, b: NbRange) {
    Before(a.start, b.start) || (a.start == b.start && Before(a.end, b.end))
  }

  /** `compareAnnotationPositons`, applied to the two annotations' anchors. */
  function CompareAnnotationPositions(a: NbRange, b: NbRange): (c: int)
    ensures c == -1 || c == 0 || c == 1
    ensures c == 0 <==> a == b
  {
    if a.start == b.start then
      if a.end == b.end then 0
      else if Before(a.end, b.end) then -1
      else 1
    else if Before(a.start, b.start) then -1
    else 1
  }

  /** The comparison is the lexicographic order on (start, end), in all three outcomes. */
  lemma ComparePositionsIsLexicographic(a: NbRange, b: NbRange)
    ensures CompareAnnotationPositions(a, b) == 0 <==> a == b
    ensures CompareAnnotationPositions(a, b) == -1 <==> RangeBefore(a, b)
    ensures CompareAnnotationPositions(a, b) == 1 <==> RangeBefore(b, a)
  {
    if a.start == b.start {
      BeforeIrreflexive(a.start);
      BeforeIrreflexive(a.end);
      if a.end != b.end {
        BeforeTotal(a.end, b.end);
        if Before(a.end, b.end) {
          BeforeAsymmetric(a.end, b.end);
        }
      }
    } else {
      BeforeTotal(a.start, b.start);
      if Before(a.start, b.start) {
        BeforeAsymmetric(a.start, b.start);
      }
    }
  }

  lemma RangeBeforeTransitive(a: NbRange, b: NbRange, c: NbRange)
    requires RangeBefore(a, b) && RangeBefore(b, c)
    ensures RangeBefore(a, c)
  {
    if a.start == b.start && b.start == c.start {
      BeforeIrreflexive(a.start);
      BeforeTransitive(a.end, b.end, c.end);
    } else if a.start != b.start && b.start != c.start {
      BeforeTransitive(a.start, b.start, c.start);
    }
  }

  /** Sorting by position is consistent, whatever maps the sorted items to their anchors. */
  lemma PositionComparator<T(!new)>(rangeOf: T -> NbRange)
    ensures Comparator((x: T, y: T) => CompareAnnotationPositions(rangeOf(x), rangeOf(y)))
  {
    forall a, b
      ensures CompareAnnotationPositions(rangeOf(a), rangeOf(b)) == -CompareAnnotationPositions(rangeOf(b), rangeOf(a))
    {
      ComparePositionsIsLexicographic(rangeOf(a), rangeOf(b));
      ComparePositionsIsLexicographic(rangeOf(b), rangeOf(a));
    }
    forall a, b, c | CompareAnnotationPositions(rangeOf(a), rangeOf(b)) <= 0 && CompareAnnotationPositions(rangeOf(b), rangeOf(c)) <= 0
      ensures CompareAnnotationPositions(rangeOf(a), rangeOf(c)) <= 0
    {
      var ra, rb, rc := rangeOf(a), rangeOf(b), rangeOf(c);
      ComparePositionsIsLexicographic(ra, rb);
      ComparePositionsIsLexicographic(rb, rc);
      ComparePositionsIsLexicographic(ra, rc);
      if ra != rb && rb != rc {
        RangeBeforeTransitive(ra, rb, rc);
      }
    }
  }
}
