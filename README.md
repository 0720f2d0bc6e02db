# nbclient selection, threading and thread-list model

A Dafny model of the application logic in `src/app.js` of nbclient. nbclient lets a reader select
a passage of a document, attach a comment to it as a highlight, and reply to comments in threads.
The model covers four parts of that file:

- **Selection and comment state** (`selection.dfy`, module `Selection`). The globals
  `selecting`, `draftHighlight` and `replyToAnnotation`, the highlight store, the
  `headAnnotations` registry and the list pane's `threadHeads` are fields of one `Controller`
  class. The mouse-up, submit, cancel and reply handlers are its methods. `Valid()` states the
  invariant: at most one highlight is a draft and it is `draftHighlight`; registered heads have
  an anchor, have no parent, are filed under their own id and are listed. `Highlight` and
  `Annotation` are classes, because the source updates their fields (`setAnnotationID`,
  `children.push`).
- **Comparators** (`comparators.dfy`). `sortByKey` is generic in the key and its strict total
  order. `compareAnnotationPositons` is modelled over anchors whose endpoints are document
  positions (`document_order.dfy`). A position is the path of child indices from the document
  pane's root. Document order is pre-order on paths, so an ancestor comes before its
  descendants. Both comparators are proved to be consistent comparators (`Comparator`), and
  the position comparator is proved to be the lexicographic order on (start, end).
- **The `processed` view** (`thread_list.dfy`). It applies a text filter and an OR-of-hashtags
  filter, ANDed together, then sorts. Threads are abstract, and `hasText` / `hasHashtag` are
  parameters. The result holds exactly the heads that pass both filters, with their
  multiplicities. With a consistent comparator it is sorted.
- **Thread-head lookup** (`RenderThreadPane`). The `while` loop walks `parent` links. Given a
  finite parent chain, it stops at the chain's root.

Three client methods at the end of `selection.dfy` replay scenarios through the class
contracts: `NewSelectionReplacesDraft`, `ReplyThreading` and `ReplyWhileDrafting`.

The model keeps these behaviours of the code:
- `draftReply` does not discard an open draft.
- `onCancelComment` leaves a pending reply target in place.
- A non-collapsed selection outside the document pane still sets `selecting`.
- Because `selecting` was set just before it, the test `if (selecting)` always holds. So a
  selection inside the pane always removes the old draft, and with no draft that removal is on
  `null`, which does nothing.

## Model

| member | source | states |
|---|---|---|
| `DocumentOrder.BeforeIrreflexive` | src/app.js:384-385 | no node follows itself in document order |
| `DocumentOrder.BeforeTransitive` | src/app.js:392-393 | document order is transitive |
| `DocumentOrder.BeforeAsymmetric` | src/app.js:392-393 | if `p` precedes `q` then `q` does not precede `p` |
| `DocumentOrder.BeforeTotal` | src/app.js:392-398 | of two different nodes one precedes the other, so the final `else` really means "b starts before a" |
| `DocumentOrder.AncestorBefore` | src/app.js:392-393 | an ancestor precedes all its descendants (pre-order, as `compareDocumentPosition` reports FOLLOWING) |
| `Comparators.SortByKey` | src/app.js:138-150 | the comparator answers only -1, 0 or 1 |
| `Comparators.SortByKeyDescendingNegates` | src/app.js:142-148 | `ascending = false` negates every answer |
| `Comparators.SortByKeyMeaning` | src/app.js:142-148 | for totally ordered keys, 0 exactly when the keys are equal, and -1 exactly when the first key is smaller (ascending) or larger (descending) |
| `Comparators.SortByKeyAntisymmetric` | src/app.js:138-150 | swapping the arguments negates the answer |
| `Comparators.SortByKeyIsComparator` | src/app.js:138-150 | for totally ordered keys it is a consistent comparator: antisymmetric, with transitive "not after" |
| `Comparators.IntLessIsStrictTotalOrder` | src/app.js:308-318 | numeric `<` on timestamps and counts is a strict total order |
| `Comparators.DescendingCountIsComparator` | src/app.js:308-318 | the recent, comment, reply-request and star orderings are consistent comparators |
| `Comparators.CompareAnnotationPositions` | src/app.js:378-400 | the comparison answers only -1, 0 or 1, and 0 exactly when both start and end coincide; `ComparePositionsIsLexicographic` gives the full lexicographic characterisation |
| `Comparators.ComparePositionsIsLexicographic` | src/app.js:378-400 | 0 exactly for equal anchors, -1 exactly when `a` is before `b` lexicographically by (start, end), and 1 exactly when `b` is before `a` |
| `Comparators.RangeBeforeTransitive` | src/app.js:378-400 | the lexicographic anchor order is transitive |
| `Comparators.PositionComparator` | src/app.js:248 | sorting threads by anchor position, the default `sort`, is a consistent comparator |
| `ThreadList.Filter` | src/app.js:254-264 | `filter` keeps each element satisfying the predicate with its multiplicity, drops the rest, and adds nothing |
| `ThreadList.MatchesHashtags` | src/app.js:257-264 | the loop returns true exactly when the thread carries at least one of the listed tags |
| `ThreadList.Insert` | src/app.js:266 | inserting adds exactly the one element |
| `ThreadList.Sort` | src/app.js:266 | the sort returns a permutation of its input |
| `ThreadList.SortedCons` | src/app.js:266 | an element not after any element of a sorted list can go in front of it |
| `ThreadList.InsertSorted` | src/app.js:266 | with a consistent comparator, inserting into a sorted list keeps it sorted |
| `ThreadList.SortSorted` | src/app.js:266 | with a consistent comparator the sort's result is sorted |
| `ThreadList.Processed` | src/app.js:251-267 | each head's multiplicity in the result is its multiplicity in `threadHeads` if it passes the text filter (when the text is non-empty) and matches some listed tag (when the list is non-empty), and 0 otherwise |
| `ThreadList.ProcessedMembers` | src/app.js:251-267 | a thread is listed exactly when it is a head and passes both filters |
| `ThreadList.ProcessedSorted` | src/app.js:266 | with a consistent comparator the listed threads are in `sort` order |
| `ThreadList.UnfilteredKeepsAll` | src/app.js:252-256 | with an empty text and no tags, every head is listed, as often as it occurs |
| `ThreadList.BothFiltersMustHold` | src/app.js:253-265 | one thread tagged, another containing the text and a third with neither: filtering on both lists nothing |
| `Selection.RemoveHighlight` | src/app.js:38 | removal takes out exactly the given highlight and no other, and removing `null` changes nothing |
| `Selection.AnchorAsWritten` | src/app.js:187 | as written: for a head it agrees with the corrected `SubmittedAnchor`, but every reply made while a draft is open gets an anchor as well as its parent, so it is not well-shaped |
| `Selection.ReplyDuringDraftIsMisshapen` | src/app.js:187-188 | as written, a reply submitted while a draft exists gets both the draft's anchor and a parent |
| `Selection.SubmittedAnchor` | src/app.js:187-188 | corrected: a new annotation has an anchor exactly when it has no parent, and a head gets the draft's anchor |
| `Selection.Highlight.constructor` | src/app.js:60 | a fresh highlight over the given anchor, still a draft |
| `Selection.Annotation.constructor` | src/app.js:185-202 | the annotation records the id, anchor, parent and comment fields. Its author is user 1. The reply-request count is 1 if a reply was requested, else 0. It is not starred, its star count is 0, it is seen, and it has no replies |
| `Selection.Controller.constructor` | src/app.js:16-18 | start state: not selecting, no draft, no reply target, no highlights, heads or list entries |
| `Selection.Controller.AtMostOneDraft` | src/app.js:37-40 | under the invariant the set of draft highlights is empty without a draft and is exactly `{draftHighlight}` with one, so at most one draft exists |
| `Selection.Controller.CheckForSelection` | src/app.js:23-55 | a collapsed selection changes nothing. Any other selection sets `selecting`. Inside the pane it also removes the old draft (a no-op on `null`), clears the reply target and leaves exactly one draft, the new highlight over the given anchor. Heads and list are unchanged, and the invariant is kept |
| `Selection.Controller.MakeHighlight` | src/app.js:58-61 | a fresh draft highlight over the anchor is appended to the store and becomes `draftHighlight`; nothing else changes |
| `Selection.Controller.OnSubmitComment` | src/app.js:180-215 | with a reply target, the new annotation (parent = target; anchor by the corrected rule of `SubmittedAnchor`, so none) is appended to the target's `children`, and the frame lets the submit change only that `children` field of the target. The target becomes null. Draft, highlights, heads and list are unchanged. Without a target but with a draft, the draft gets the id, and the head is stored under that id (overwriting an earlier one with the same id) and appended to `threadHeads`. Then the draft is null and `selecting` false. With neither, nothing changes and nothing is posted |
| `Selection.Controller.OnCancelComment` | src/app.js:216-222 | with a draft: it is removed from the store, the draft becomes null and `selecting` false. Without one: nothing changes. The reply target is kept either way |
| `Selection.Controller.DraftReply` | src/app.js:351-355 | the given annotation becomes the reply target; nothing else changes |
| `Selection.Controller.SelectAnnotation` | src/app.js:341 | a registered id shows that head's thread; an unregistered id finds no thread |
| `Selection.RenderThreadPane` | src/app.js:369-376 | given a finite, acyclic parent chain from the annotation, the loop ends at an ancestor-or-self with no parent: the chain's last element |

## Findings

| source | as written | input that shows it | evidently intended | confidence | as-written member | corrected member |
|---|---|---|---|---|---|---|
| src/app.js:187 | the new annotation's range is `draftHighlight.range` whenever a draft exists, even when `replyToAnnotation` is set | select a passage (so a draft exists), press reply on a thread, submit: the reply has a parent and also the draft's anchor | a reply has no anchor (the line's comment: "null if this is reply") | not executed; medium | `Selection.ReplyDuringDraftIsMisshapen` | `Selection.SubmittedAnchor` |

## Left out

- The Vue instances are UI and are not modelled: the editor pane's `init`/`show`/`hide`, the search bar, and the list and thread panes' reactivity (src/app.js:154-179, 226-240, 345-366).
- DOM work is not modelled: `window.getSelection`, `docPane.contains`, `removeAllRanges`, the hashtag checkboxes and the "apply filter" handler (src/app.js:276-299), and the `classList` toggling in `selectAnnotation` (src/app.js:325-340). "Collapsed" and "inside the pane" are boolean inputs of `CheckForSelection`.
- nbrange.js is not part of this model. `CheckForSelection` receives the anchor that `createNbRange` would build. Serialising and deserialising anchors is not modelled.
- highlighter.js is not part of this model. The store is the sequence of live highlights: creating appends, removing filters. Marker elements are not modelled, so `redrawHighlights` / `render` (src/app.js:63-65) has no effect on the modelled state and is left out.
- annotation.js is not part of this model. `hasText` and `hasHashtag` are parameters of `Processed`. `countAllReplies`, `countAllReplyRequests`, `countAllStars`, `toggleStar` and `toggleReplyRequest` (src/app.js:356-361) are not modelled. The `Annotation` constructor is assumed to store its arguments and start with no children.
- The sort-by handler (src/app.js:302-323) is not modelled as a state change. Its `'position'` case assigns the undefined `compareAnnotations`; the model uses `compareAnnotationPositons`, the default at src/app.js:248. Its other cases are covered by `DescendingCountIsComparator`.
- The static `users` and `hashtags` tables and the sorting of the suggestion lists are static data (src/app.js:67-136). The author is the constant user "1", "Alisa Ono".
- Annotation ids are `comment.timestamp`, an input. If two submissions share a timestamp, the model keeps the source's behaviour: `headAnnotations` keeps only the later head, while `threadHeads` lists both.
- `Array.prototype.sort` is modelled by an insertion sort. The model promises only that its result is a permutation and is sorted. Stability and the engine's tie order are not claimed.
- When both filters are off, the source's `results` is `threadHeads` itself, so `results.sort` also reorders `threadHeads` in place. `Processed` returns a new sequence and leaves `threadHeads` alone.
- `SortByKey`: its lemmas hold for any strict total order on the keys. JavaScript's string comparison, used for string keys, is not formalised.
- `CompareAnnotationPositions`: positions are assumed to lie in one document. `compareDocumentPosition` on disconnected nodes is not modelled.
- `Selection.Controller.SelectAnnotation`: for an unregistered id the source throws a TypeError. It throws at src/app.js:338, because no list row carries that id (assuming the list renders rows only for `threadHeads`), or at src/app.js:371 on `undefined.parent` if the DOM lines are set aside. The model returns `None` instead.
- `Selection.Controller.OnSubmitComment`: the new annotation's anchor follows the corrected rule `SubmittedAnchor`, so a reply has none. As written, src/app.js:187 gives a reply the open draft's range whenever a draft exists (see "## Findings"); the handler does not model that.
- `Selection.Controller.OnSubmitComment`: with neither a reply target nor a draft, the source throws at `draftHighlight.setAnnotationID` (src/app.js:208). The model returns `None` and changes nothing.
