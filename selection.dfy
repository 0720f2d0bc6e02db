/**
 * The selection and comment state of src/app.js: the globals `selecting`, `draftHighlight`
 * and `replyToAnnotation`, the highlight store, the `headAnnotations` registry and the list
 * pane's `threadHeads`, together with the handlers that change them.
 *
 * The editor pane, the list and thread panes and the browser's selection object are not part of
 * this model: a selection arrives as two booleans (is it collapsed, does it lie in the document
 * pane) and the anchor `createNbRange` would build from it.
 */
module Selection {
  import opened Wrappers
  import opened DocumentOrder

  /** Annotation ids are the submission timestamps. */
  type Id = int

  /** The user every comment is attributed to, and that user's display name. */
  const AuthorId: string := "1"
  const AuthorName: string := "Alisa Ono"

  /** What the comment editor hands over on submit. */
  datatype Comment = Comment(
    timestamp: int,
    html: string,
    hashtags: seq<string>,
    users: seq<string>,
    visibility: string,
    anonymity: bool,
    replyRequested: bool)

  /** A highlight drawn over an anchor; a draft until an annotation id is attached. */
  class Highlight {
    const range: NbRange
    var annotationId: Option<Id>

    constructor (range: NbRange)
      ensures this.range == range && annotationId == None
    {
      this.range := range;
      annotationId := None;
    }
  }

  /** A head annotation (with an anchor, no parent) or a reply (with a parent). */
  class Annotation {
    const id: Id
    const range: Option<NbRange>
    const parent: Annotation?
    const timestamp: int
    const author: string
    const authorName: string
    const content: string
    const hashtags: seq<string>
    const users: seq<string>
    const visibility: string
    const anonymity: bool
    var replyRequestedByMe: bool
    var replyRequestCount: nat
    var starredByMe: bool
    var starCount: nat
    var seenByMe: bool
    var children: seq<Annotation>

    /** The annotation a submitted comment becomes: attributed to the current user, its reply
      * request counted once when set, not starred, seen, and without replies. */
    ghost predicate Records(id: Id, range: Option<NbRange>, parent: Annotation?, c: Comment)
      reads this
    {
      && this.id == id && this.range == range && this.parent == parent
      && timestamp == c.timestamp && author == AuthorId && authorName == AuthorName
      && content == c.html && hashtags == c.hashtags && users == c.users
      && visibility == c.visibility && anonymity == c.anonymity
      && replyRequestedByMe == c.replyRequested
      && replyRequestCount == (if c.replyRequested then 1 else 0)
      && !starredByMe && starCount == 0 && seenByMe
      && children == []
    }

    constructor (id: Id, range: Option<NbRange>, parent: Annotation?, c: Comment)
      ensures Records(id, range, parent, c)
    {
      this.id := id;
      this.range := range;
      this.parent := parent;
      timestamp := c.timestamp;
      author := AuthorId;
      authorName := AuthorName;
      content := c.html;
      hashtags := c.hashtags;
      users := c.users;
      visibility := c.visibility;
      anonymity := c.anonymity;
      replyRequestedByMe := c.replyRequested;
      replyRequestCount := if c.replyRequested then 1 else 0;
      starredByMe := false;
      starCount := 0;
      seenByMe := true;
      children := [];
    }
  }

  /** `highlights.removeHighlight(h)` on the store of live highlights: only `h` goes, and a null
    * `h` leaves the store as it is. */
  function RemoveHighlight(live: seq<Highlight>, h: Highlight?): (r: seq<Highlight>)
    ensures forall i :: 0 <= i < |r| ==> r[i] in live && r[i] != h
    ensures forall i :: 0 <= i < |live| && live[i] != h ==> live[i] in r
    ensures h == null ==> r == live
  {
    if live == [] then []
    else if live[0] == h then RemoveHighlight(live[1..], h)
    else
      assert live == [live[0]] + live[1..];
      [live[0]] + RemoveHighlight(live[1..], h)
  }

  /**
   * The anchor line 187 gives a new annotation: the draft's range whenever a draft exists,
   * even when the comment is a reply. `replying` is deliberately ignored, as it is there; it is
   * kept so that this and `SubmittedAnchor` take the same inputs.
   */
  function AnchorAsWritten(draft: Option<NbRange>, replying: bool): (r: Option<NbRange>)
    ensures !replying && draft.Some? ==> r == SubmittedAnchor(draft, replying)
    ensures replying && draft.Some? ==> !WellShaped(r, replying)
  {
    draft
  }

  /** An annotation has an anchor exactly when it has no parent. */
  predicate WellShaped(range: Option<NbRange>, hasParent: bool) {
    range.Some? != hasParent
  }

  /** Selecting text and then choosing "reply" before submitting yields a reply that carries
    * the draft's anchor as well as its parent. */
  lemma ReplyDuringDraftIsMisshapen(draft: NbRange)
    ensures !WellShaped(AnchorAsWritten(Some(draft), true), true)
  {
  }

  /** The anchor a new annotation gets: the draft's range for a head, none for a reply. */
  function SubmittedAnchor(draft: Option<NbRange>, replying: bool): (r: Option<NbRange>)
    requires replying || draft.Some?
    ensures WellShaped(r, replying)
    ensures !replying ==> r == draft
  {
    if replying then None else draft
  }

  class Controller {
    var selecting: bool
    var draftHighlight: Highlight?
    var replyToAnnotation: Annotation?
    /** The highlight store: every highlight currently drawn, in creation order. */
    var highlights: seq<Highlight>
    var headAnnotations: map<Id, Annotation>
    var threadHeads: seq<Annotation>

    /** The highlights that have no annotation yet. */
    ghost function Drafts(): set<Highlight>
      reads this, highlights
    {
      set h | h in highlights && h.annotationId.None?
    }

    ghost predicate Valid()
      reads this, highlights
    {
      // the draft, if any, is drawn and not yet committed; every other highlight is committed
      && (draftHighlight != null ==> draftHighlight in highlights && draftHighlight.annotationId.None?)
      && (forall h :: h in highlights && h.annotationId.None? ==> h == draftHighlight)
      // registered heads are heads, filed under their own id, and listed
      && (forall id :: id in headAnnotations ==>
            headAnnotations[id].id == id && headAnnotations[id].parent == null &&
            headAnnotations[id].range.Some? && headAnnotations[id] in threadHeads)
      && (forall a :: a in threadHeads ==> a.parent == null && a.range.Some? && a.id in headAnnotations)
    }

    constructor ()
      ensures Valid()
      ensures !selecting && draftHighlight == null && replyToAnnotation == null
      ensures highlights == [] && headAnnotations == map[] && threadHeads == []
    {
      selecting := false;
      draftHighlight := null;
      replyToAnnotation := null;
      highlights := [];
      headAnnotations := map[];
      threadHeads := [];
    }

    /** At most one draft highlight exists, and it is `draftHighlight`. */
    lemma AtMostOneDraft()
      requires Valid()
      ensures draftHighlight == null ==> Drafts() == {}
      ensures draftHighlight != null ==> Drafts() == {draftHighlight}
      ensures |Drafts()| <= 1
    {
    }

    /** The mouse-up handler. */
    method CheckForSelection(isCollapsed: bool, insidePane: bool, range: NbRange)
      requires Valid()
      modifies this
      ensures Valid()
      ensures headAnnotations == old(headAnnotations) && threadHeads == old(threadHeads)
      ensures isCollapsed ==>
                selecting == old(selecting) && draftHighlight == old(draftHighlight) &&
                replyToAnnotation == old(replyToAnnotation) && highlights == old(highlights)
      ensures !isCollapsed ==> selecting
      ensures !isCollapsed && !insidePane ==>
                draftHighlight == old(draftHighlight) &&
                replyToAnnotation == old(replyToAnnotation) && highlights == old(highlights)
      ensures !isCollapsed && insidePane ==>
                replyToAnnotation == null && draftHighlight != null && fresh(draftHighlight) &&
                draftHighlight.range == range && draftHighlight.annotationId == None &&
                highlights == RemoveHighlight(old(highlights), old(draftHighlight)) + [draftHighlight]
    {
      if !isCollapsed {
        selecting := true;
        if insidePane {
          // `selecting` was set just above, so the old draft is always removed
          if selecting {
            highlights := RemoveHighlight(highlights, draftHighlight);
            draftHighlight := null;
          }
          // a fresh selection drops any pending reply target
          replyToAnnotation := null;
          MakeHighlight(range);
        }
      }
    }

    /** Draw a new highlight over `range` and make it the draft. */
    method MakeHighlight(range: NbRange)
      modifies this
      ensures draftHighlight != null && fresh(draftHighlight)
      ensures draftHighlight.range == range && draftHighlight.annotationId == None
      ensures highlights == old(highlights) + [draftHighlight]
      ensures selecting == old(selecting) && replyToAnnotation == old(replyToAnnotation)
      ensures headAnnotations == old(headAnnotations) && threadHeads == old(threadHeads)
    {
      var h := new Highlight(range);
      highlights := highlights + [h];
      draftHighlight := h;
    }

    /**
     * The editor's submit handler. With a reply target the new annotation is appended to the
     * target's replies; otherwise it becomes a head over the draft highlight. With neither a
     * reply target nor a draft the source fails on `draftHighlight.setAnnotationID`; here that
     * is `None`, with nothing changed.
     */
    method OnSubmitComment(comment: Comment) returns (posted: Option<Annotation>)
      requires Valid()
      modifies this
      modifies (if replyToAnnotation == null then {} else {replyToAnnotation})`children
      modifies (if draftHighlight == null then {} else {draftHighlight})`annotationId
      ensures Valid()
      ensures highlights == old(highlights)
      ensures posted.Some? <==> old(replyToAnnotation) != null || old(draftHighlight) != null
      ensures posted.None? ==>
                selecting == old(selecting) && draftHighlight == null && replyToAnnotation == null &&
                headAnnotations == old(headAnnotations) && threadHeads == old(threadHeads)
      ensures old(replyToAnnotation) != null ==>
                posted.Some? && fresh(posted.value) &&
                posted.value.Records(comment.timestamp, None, old(replyToAnnotation), comment) &&
                old(replyToAnnotation).children == old(replyToAnnotation.children) + [posted.value] &&
                replyToAnnotation == null &&
                selecting == old(selecting) && draftHighlight == old(draftHighlight) &&
                (draftHighlight != null ==> draftHighlight.annotationId == old(draftHighlight.annotationId)) &&
                headAnnotations == old(headAnnotations) && threadHeads == old(threadHeads)
      ensures old(replyToAnnotation) == null && old(draftHighlight) != null ==>
                posted.Some? && fresh(posted.value) &&
                posted.value.Records(comment.timestamp, Some(old(draftHighlight).range), null, comment) &&
                old(draftHighlight).annotationId == Some(comment.timestamp) &&
                headAnnotations == old(headAnnotations)[comment.timestamp := posted.value] &&
                threadHeads == old(threadHeads) + [posted.value] &&
                draftHighlight == null && !selecting && replyToAnnotation == null
    {
      var id := comment.timestamp;
      var replying := replyToAnnotation != null;
      if !replying && draftHighlight == null {
        return None;
      }
      var draft := if draftHighlight != null then Some(draftHighlight.range) else None;
      var annotation := new Annotation(id, SubmittedAnchor(draft, replying), replyToAnnotation, comment);
      if replyToAnnotation != null {
        replyToAnnotation.children := replyToAnnotation.children + [annotation];
        replyToAnnotation := null;
      } else {
        draftHighlight.annotationId := Some(id);
        headAnnotations := headAnnotations[id := annotation];
        threadHeads := threadHeads + [annotation];
        draftHighlight := null;
        selecting := false;
      }
      posted := Some(annotation);
    }

    /** The editor's cancel handler: drop the draft, if there is one. A pending reply target
      * is left as it is. */
    method OnCancelComment()
      requires Valid()
      modifies this
      ensures Valid()
      ensures replyToAnnotation == old(replyToAnnotation)
      ensures headAnnotations == old(headAnnotations) && threadHeads == old(threadHeads)
      ensures old(draftHighlight) != null ==>
                draftHighlight == null && !selecting &&
                highlights == RemoveHighlight(old(highlights), old(draftHighlight))
      ensures old(draftHighlight) == null ==>
                draftHighlight == null && selecting == old(selecting) && highlights == old(highlights)
    {
      if draftHighlight != null {
        highlights := RemoveHighlight(highlights, draftHighlight);
        draftHighlight := null;
        selecting := false;
      }
    }

    /** The thread pane's reply handler: `comment` becomes the reply target. The draft, if any,
      * stays. */
    method DraftReply(comment: Annotation)
      requires Valid()
      modifies this
      ensures Valid()
      ensures replyToAnnotation == comment
      ensures selecting == old(selecting) && draftHighlight == old(draftHighlight)
      ensures highlights == old(highlights)
      ensures headAnnotations == old(headAnnotations) && threadHeads == old(threadHeads)
    {
      replyToAnnotation := comment;
    }

    /** Selecting a listed thread: look its head up by id and walk to the root. An id that is
      * not registered finds no thread. */
    method SelectAnnotation(id: Id) returns (shown: Option<Annotation>)
      requires Valid()
      ensures id in headAnnotations ==> shown == Some(headAnnotations[id])
      ensures id !in headAnnotations ==> shown == None
    {
      if id !in headAnnotations {
        return None;
      }
      var head := RenderThreadPane(headAnnotations[id], [headAnnotations[id]]);
      shown := Some(head);
    }
  }

  /** `chain` lists `a`, its parent, its grandparent and so on up to an annotation without a
    * parent: the parent links from `a` are finite and acyclic. */
  ghost predicate ParentChain(a: Annotation, chain: seq<Annotation>) {
    && |chain| > 0 && chain[0] == a
    && (forall i :: 0 <= i < |chain| - 1 ==> chain[i].parent == chain[i + 1])
    && chain[|chain| - 1].parent == null
  }

  /** The head of the thread containing `annotation` (what the thread pane is set to show). */
  method RenderThreadPane(annotation: Annotation, ghost chain: seq<Annotation>) returns (headAnnotation: Annotation)
    requires ParentChain(annotation, chain)
    ensures headAnnotation.parent == null
    ensures headAnnotation in chain
    ensures headAnnotation == chain[|chain| - 1]
  {
    headAnnotation := annotation;
    ghost var k := 0;
    while headAnnotation.parent != null
      invariant 0 <= k < |chain| && headAnnotation == chain[k]
      invariant k < |chain| - 1 ==> headAnnotation.parent == chain[k + 1]
      decreases |chain| - k
    {
      headAnnotation := headAnnotation.parent;
      k := k + 1;
    }
  }

  /** A second selection before submitting removes the first draft; the new one is the only
    * draft. */
  method NewSelectionReplacesDraft(a: NbRange, b: NbRange)
  {
    var c := new Controller();
    c.CheckForSelection(false, true, a);
    var first := c.draftHighlight;
    c.CheckForSelection(false, true, b);
    assert first !in c.highlights;
    c.AtMostOneDraft();
    assert c.draftHighlight != null && c.Drafts() == {c.draftHighlight} && c.draftHighlight.range == b;
  }

  /** A head comment is registered under its id; a reply to it lands in its replies, with the
    * head as parent and no anchor of its own. */
  method ReplyThreading(a: NbRange, hello: Comment, world: Comment)
  {
    var c := new Controller();
    c.CheckForSelection(false, true, a);
    var head := c.OnSubmitComment(hello);
    var h := head.value;
    assert h.parent == null && h.range == Some(a);
    assert c.headAnnotations == map[hello.timestamp := h] && c.threadHeads == [h];
    c.DraftReply(h);
    var reply := c.OnSubmitComment(world);
    assert reply.value.parent == h && reply.value.range == None;
    assert h.children == [reply.value];
    assert c.threadHeads == [h] && c.draftHighlight == null;
  }

  /** Choosing "reply" while a draft is open and submitting: under the corrected anchor rule
    * (`SubmittedAnchor`) the reply gets no anchor, where line 187 as written would give it the
    * draft's range; the draft stays drawn and uncommitted either way. */
  method ReplyWhileDrafting(a: NbRange, b: NbRange, hello: Comment, world: Comment)
  {
    var c := new Controller();
    c.CheckForSelection(false, true, a);
    var head := c.OnSubmitComment(hello);
    var h := head.value;
    c.CheckForSelection(false, true, b);
    var draft := c.draftHighlight;
    c.DraftReply(h);
    var reply := c.OnSubmitComment(world);
    assert reply.value.range == None && reply.value.parent == h;
    assert c.draftHighlight == draft && draft != null && draft.annotationId == None;
  }
}
