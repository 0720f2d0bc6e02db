/**
 * The list pane's `processed` view of the thread heads: an optional text filter, an optional
 * hashtag filter (a thread passes when it carries at least one of the chosen tags), both
 * applied together, and then a sort with the chosen comparator.
 *
 * Threads are kept abstract (`T`); `hasText` and `hasHashtag` are the Annotation methods of
 * the same names, whose definitions are not part of this model.
 */
module ThreadList {
  import opened Comparators

  /** A hashtag id, as the filter checkboxes report it. */
  type Tag = string

  /** The elements of `s` that satisfy `p` (`Array.prototype.filter`). The contract states which
    * elements are kept and how often, not their order: `Processed` sorts the result anyway. */
  function Filter<T(!new)>(s: seq<T>, p: T -> bool): (r: seq<T>)
    ensures |r| <= |s|
    ensures forall x :: multiset(r)[x] == if p(x) then multiset(s)[x] else 0
  {
    if s == [] then []
    else
      assert s == [s[0]] + s[1..];
      (if p(s[0]) then [s[0]] else []) + Filter(s[1..], p)
  }

  /** The thread carries at least one of `tags`. */
  predicate AnyHashtag<T>(hasHashtag: (T, Tag) -> bool, thread: T, tags: seq<Tag>) {
    exists i :: 0 <= i < |tags| && hasHashtag(thread, tags[i])
  }

  /** The loop inside the hashtag filter: stop at the first tag the thread carries. */
  method MatchesHashtags<T>(hasHashtag: (T, Tag) -> bool, thread: T, tags: seq<Tag>) returns (found: bool)
    ensures found <==> AnyHashtag(hasHashtag, thread, tags)
  {
    for i := 0 to |tags|
      invariant forall k :: 0 <= k < i ==> !hasHashtag(thread, tags[k])
    {
      if hasHashtag(thread, tags[i]) {
        return true;
      }
    }
    return false;
  }

  /** Whether a thread is shown under the given filter settings: an empty text or an empty tag
    * list switches that filter off. */
  predicate Shown<T>(hasText: (T, string) -> bool, hasHashtag: (T, Tag) -> bool,
                     filterText: string, filterHashtags: seq<Tag>, thread: T)
  {
    && (filterText != "" ==> hasText(thread, filterText))
    && (|filterHashtags| > 0 ==> AnyHashtag(hasHashtag, thread, filterHashtags))
  }

  /** `s` is in the order `cmp` asks for: no element is after a later one. */
  predicate SortedBy<T>(cmp: (T, T) -> int, s: seq<T>) {
    forall i, j :: 0 <= i < j < |s| ==> cmp(s[i], s[j]) <= 0
  }

  function Insert<T>(cmp: (T, T) -> int, x: T, s: seq<T>): (r: seq<T>)
    ensures multiset(r) == multiset(s) + multiset{x}
  {
    if s == [] then [x]
    else if cmp(x, s[0]) <= 0 then [x] + s
    else
      assert s == [s[0]] + s[1..];
      [s[0]] + Insert(cmp, x, s[1..])
  }

  /** Sorting with a comparator (`Array.prototype.sort(cmp)`): a permutation of `s`. */
  function Sort<T>(cmp: (T, T) -> int, s: seq<T>): (r: seq<T>)
    ensures multiset(r) == multiset(s)
  {
    if s == [] then []
    else
      assert s == [s[0]] + s[1..];
      Insert(cmp, s[0], Sort(cmp, s[1..]))
  }

  lemma SortedCons<T>(cmp: (T, T) -> int, h: T, t: seq<T>)
    requires SortedBy(cmp, t)
    requires forall y :: y in t ==> cmp(h, y) <= 0
    ensures SortedBy(cmp, [h] + t)
  {
  }

  lemma {:induction false} InsertSorted<T(!new)>(cmp: (T, T) -> int, x: T, s: seq<T>)
    requires Comparator(cmp) && SortedBy(cmp, s)
    ensures SortedBy(cmp, Insert(cmp, x, s))
  {
    if s == [] {
    } else if cmp(x, s[0]) <= 0 {
      forall y | y in s ensures cmp(x, y) <= 0 {
        var k :| 0 <= k < |s| && s[k] == y;
        if k > 0 {
          assert cmp(s[0], s[k]) <= 0;
        }
      }
      SortedCons(cmp, x, s);
    } else {
      assert cmp(s[0], x) < 0;
      var t := s[1..];
      assert SortedBy(cmp, t) by {
        forall i, j | 0 <= i < j < |t| ensures cmp(t[i], t[j]) <= 0 {
          assert t[i] == s[i + 1] && t[j] == s[j + 1];
        }
      }
      InsertSorted(cmp, x, t);
      var rest := Insert(cmp, x, t);
      forall y | y in rest ensures cmp(s[0], y) <= 0 {
        assert y in multiset(rest);
        if y != x {
          assert y in multiset(t);
          var k :| 0 <= k < |t| && t[k] == y;
          assert s[k + 1] == y;
        }
      }
      SortedCons(cmp, s[0], rest);
    }
  }

  lemma {:induction false} SortSorted<T(!new)>(cmp: (T, T) -> int, s: seq<T>)
    requires Comparator(cmp)
    ensures SortedBy(cmp, Sort(cmp, s))
  {
    if s != [] {
      SortSorted(cmp, s[1..]);
      InsertSorted(cmp, s[0], Sort(cmp, s[1..]));
    }
  }

  /** The `processed` computed property of the list pane. */
  function Processed<T(!new)>(threadHeads: seq<T>, filterText: string, filterHashtags: seq<Tag>,
                              hasText: (T, string) -> bool, hasHashtag: (T, Tag) -> bool,
                              sort: (T, T) -> int): (results: seq<T>)
    ensures forall x :: multiset(results)[x] ==
              if Shown(hasText, hasHashtag, filterText, filterHashtags, x) then multiset(threadHeads)[x] else 0
  {
    var byText := if filterText != "" then Filter(threadHeads, x => hasText(x, filterText)) else threadHeads;
    var byTag := if |filterHashtags| > 0 then Filter(byText, x => AnyHashtag(hasHashtag, x, filterHashtags)) else byText;
    Sort(sort, byTag)
  }

  /** A thread is listed exactly when it is one of the heads and passes both filters. */
  lemma ProcessedMembers<T(!new)>(threadHeads: seq<T>, filterText: string, filterHashtags: seq<Tag>,
                                  hasText: (T, string) -> bool, hasHashtag: (T, Tag) -> bool,
                                  sort: (T, T) -> int, x: T)
    ensures x in Processed(threadHeads, filterText, filterHashtags, hasText, hasHashtag, sort) <==>
              x in threadHeads && Shown(hasText, hasHashtag, filterText, filterHashtags, x)
  {
    var r := Processed(threadHeads, filterText, filterHashtags, hasText, hasHashtag, sort);
    assert x in r <==> x in multiset(r);
    assert x in threadHeads <==> x in multiset(threadHeads);
  }

  /** With a consistent comparator the listed threads are in its order. */
  lemma ProcessedSorted<T(!new)>(threadHeads: seq<T>, filterText: string, filterHashtags: seq<Tag>,
                                 hasText: (T, string) -> bool, hasHashtag: (T, Tag) -> bool,
                                 sort: (T, T) -> int)
    requires Comparator(sort)
    ensures SortedBy(sort, Processed(threadHeads, filterText, filterHashtags, hasText, hasHashtag, sort))
  {
    var byText := if filterText != "" then Filter(threadHeads, x => hasText(x, filterText)) else threadHeads;
    var byTag := if |filterHashtags| > 0 then Filter(byText, x => AnyHashtag(hasHashtag, x, filterHashtags)) else byText;
    SortSorted(sort, byTag);
  }

  /** With both filters switched off every head is listed, as often as it occurs. */
  lemma UnfilteredKeepsAll<T(!new)>(threadHeads: seq<T>, hasText: (T, string) -> bool,
                                    hasHashtag: (T, Tag) -> bool, sort: (T, T) -> int)
    ensures multiset(Processed(threadHeads, "", [], hasText, hasHashtag, sort)) == multiset(threadHeads)
  {
  }

  /**
   * Filters on both axes are ANDed: with thread 1 tagged "2" (confused), thread 2 containing
   * "exam" and thread 3 neither, asking for tag "2" and text "exam" lists nothing.
   */
  lemma BothFiltersMustHold(sort: (int, int) -> int)
    ensures Processed([1, 2, 3], "exam", ["2"],
                      (t: int, q: string) => t == 2 && q == "exam",
                      (t: int, tag: Tag) => t == 1 && tag == "2",
                      sort) == []
  {
  }
}
