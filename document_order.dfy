/**
 * Positions in the document pane and the anchors built from them.
 *
 * A DOM node of the document pane is identified by the path of child indices that leads to it
 * from the pane's root, so two positions are the same node (`isSameNode`) exactly when their
 * paths are equal. Document order (`compareDocumentPosition` reporting FOLLOWING) is the
 * depth-first, pre-order reading order: an ancestor comes before its descendants, and otherwise
 * the first child index where the two paths differ decides.
 */
module DocumentOrder {

  /** Child indices from the document pane's root to a node. */
  type Path = seq<nat>

  /** The serialisable anchor of a highlight: where it starts and where it ends. */
  datatype NbRange = NbRange(start: Path, end: Path)

  /** `p` precedes `q` in document order. */
  predicate Before(p: Path, q: Path)
    decreases |p|
  {
    if p == [] then q != []
    else q != [] && (p[0] < q[0] || (p[0] == q[0] && Before(p[1..], q[1..])))
  }

  lemma {:induction false} BeforeIrreflexive(p: Path)
    ensures !Before(p, p)
  {
    if p != [] {
      BeforeIrreflexive(p[1..]);
    }
  }

  lemma {:induction false} BeforeTransitive(p: Path, q: Path, r: Path)
    requires Before(p, q) && Before(q, r)
    ensures Before(p, r)
    decreases |p|
  {
    if p != [] && p[0] == q[0] && q[0] == r[0] {
      BeforeTransitive(p[1..], q[1..], r[1..]);
    }
  }

  lemma BeforeAsymmetric(p: Path, q: Path)
    requires Before(p, q)
    ensures !Before(q, p)
  {
  }

  /** Two different nodes are always ordered one way or the other. */
  lemma {:induction false} BeforeTotal(p: Path, q: Path)
    requires p != q
    ensures Before(p, q) || Before(q, p)
    decreases |p|
  {
    if p != [] && q != [] && p[0] == q[0] {
      assert p == [p[0]] + p[1..] && q == [q[0]] + q[1..];
      BeforeTotal(p[1..], q[1..]);
    }
  }

  /** An ancestor precedes every one of its descendants. */
  lemma {:induction false} AncestorBefore(p: Path, below: Path)
    requires below != []
    ensures Before(p, p + below)
    decreases |p|
  {
    if p != [] {
      assert (p + below)[1..] == p[1..] + below;
      AncestorBefore(p[1..], below);
    }
  }
}
