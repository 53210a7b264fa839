/** Pre-order numbers of the dominator tree, for dominance checks in constant time. */
module Preorder {
  import opened IR
  import opened Graphs
  import opened ControlFlow
  import opened DomTreeTheory
  import opened PostorderTheory
  import opened Dominance

  datatype PreorderNode = PreorderNode(child: Option<Block>, sibling: Option<Block>, preNumber: nat, preMax: nat)

  const EMPTY: PreorderNode := PreorderNode(None, None, 0, 0)

  ghost predicate IsChild(ns: seq<Node>, c: Block, p: Block) {
    Numbered(ns, c) && HasParent(ns, c) && Par(ns, c) == p
  }

  /** Among the children numbered `lo` or more, `child` is the first in reverse post-order and
      `sibling` leads to the next. */
  ghost predicate Linked(g: Graph, ns: seq<Node>, pn: seq<PreorderNode>, lo: nat) {
    && |pn| == |ns|
    && (forall p: Block {:trigger ChildLink(ns, pn, p, lo)} :: p < |ns| ==> ChildLink(ns, pn, p, lo))
    && (forall b: Block {:trigger SiblingLink(ns, pn, b, lo)} :: b < |ns| ==> SiblingLink(ns, pn, b, lo))
  }

  ghost predicate ChildLink(ns: seq<Node>, pn: seq<PreorderNode>, p: Block, lo: nat) {
    p < |pn| && FirstChild(ns, p, pn[p].child, lo)
  }

  ghost predicate SiblingLink(ns: seq<Node>, pn: seq<PreorderNode>, b: Block, lo: nat) {
    b < |pn| && if HasParent(ns, b) && ns[b].rpo >= lo then NextChild(ns, b, pn[b].sibling) else pn[b].sibling.None?
  }

  ghost predicate FirstChild(ns: seq<Node>, p: Block, child: Option<Block>, lo: nat) {
    match child
    case None => forall c: Block :: IsChild(ns, c, p) ==> ns[c].rpo < lo
    case Some(c) => IsChild(ns, c, p) && ns[c].rpo >= lo
                    && forall d: Block :: IsChild(ns, d, p) && ns[d].rpo >= lo ==> ns[c].rpo <= ns[d].rpo
  }

  ghost predicate NextChild(ns: seq<Node>, b: Block, sibling: Option<Block>)
    requires b < |ns| && HasParent(ns, b)
  {
    match sibling
    case None => forall c: Block :: IsChild(ns, c, Par(ns, b)) ==> ns[c].rpo <= ns[b].rpo
    case Some(s) => IsChild(ns, s, Par(ns, b)) && ns[b].rpo < ns[s].rpo
                    && forall d: Block ::
                        IsChild(ns, d, Par(ns, b)) ==> ns[d].rpo <= ns[b].rpo || ns[s].rpo <= ns[d].rpo
  }

  /** The blocks a traversal visits from `b` on: the subtree of `b`, then those of its later siblings. */
  ghost function Walk(ns: seq<Node>, pn: seq<PreorderNode>, top: nat, b: Block): seq<Block>
    decreases if b < |ns| && ns[b].rpo < top then top - ns[b].rpo else 0, 2
  {
    if b < |ns| && |pn| == |ns| && ns[b].rpo < top then
      Subtree(ns, pn, top, b) + WalkFrom(ns, pn, top, b, pn[b].sibling)
    else []
  }

  ghost function Subtree(ns: seq<Node>, pn: seq<PreorderNode>, top: nat, b: Block): seq<Block>
    requires b < |ns| && |pn| == |ns| && ns[b].rpo < top
    decreases top - ns[b].rpo, 1
  {
    [b] + WalkFrom(ns, pn, top, b, pn[b].child)
  }

  ghost function WalkFrom(ns: seq<Node>, pn: seq<PreorderNode>, top: nat, b: Block, next: Option<Block>): seq<Block>
    requires b < |ns| && ns[b].rpo < top
    decreases top - ns[b].rpo, 0
  {
    if next.Some? && next.value < |ns| && ns[b].rpo < ns[next.value].rpo < top then
      Walk(ns, pn, top, next.value)
    else []
  }

  // The walk visits the tree

  /** `x` is under `b` or under a sibling of `b` that comes later. */
  ghost predicate UnderFrom(ns: seq<Node>, b: Block, x: Block)
    requires b < |ns|
  {
    exists c: Block :: SameLevel(ns, b, c) && Anc(ns, c, x)
  }

  ghost predicate SameLevel(ns: seq<Node>, b: Block, c: Block)
    requires b < |ns|
  {
    c == b || (HasParent(ns, b) && IsChild(ns, c, Par(ns, b)) && ns[b].rpo <= ns[c].rpo)
  }

  ghost predicate NumbersBelowTop(ns: seq<Node>, top: nat) {
    forall b: Block :: b < |ns| ==> ns[b].rpo < top
  }

  lemma {:induction false} AncViaChild(ns: seq<Node>, b: Block, x: Block) returns (c: Block)
    requires Anc(ns, b, x) && b != x && Numbered(ns, x)
    ensures IsChild(ns, c, b) && Anc(ns, c, x)
    decreases ns[x].rpo
  {
    if Par(ns, x) == b {
      c := x;
    } else {
      c := AncViaChild(ns, b, Par(ns, x));
    }
  }

  lemma {:induction false} ChildAnc(ns: seq<Node>, c: Block, b: Block, x: Block)
    requires IsChild(ns, c, b) && Anc(ns, c, x)
    ensures Anc(ns, b, x)
  {
    assert Anc(ns, b, c);
    AncTrans(ns, b, c, x);
  }

  /** Different children have disjoint subtrees. */
  lemma {:induction false} ChildrenDisjoint(g: Graph, ns: seq<Node>, c: Block, d: Block, p: Block, x: Block)
    requires TreeOk(g, ns) && Numbered(ns, x)
    requires IsChild(ns, c, p) && IsChild(ns, d, p) && Anc(ns, c, x) && Anc(ns, d, x)
    ensures c == d
  {
    if ns[c].rpo <= ns[d].rpo {
      AncChain(g, ns, c, d, x);
      if c != d {
        AncNum(g, ns, c, p);
      }
    } else {
      AncChain(g, ns, d, c, x);
      AncNum(g, ns, d, p);
    }
  }

  lemma {:induction false} WalkContents(g: Graph, ns: seq<Node>, pn: seq<PreorderNode>, top: nat, b: Block, x: Block)
    requires TreeOk(g, ns) && Linked(g, ns, pn, 0) && NumbersBelowTop(ns, top) && Numbered(ns, b)
    ensures x in Walk(ns, pn, top, b) ==> Numbered(ns, x)
    ensures Numbered(ns, x) ==> (x in Walk(ns, pn, top, b) <==> UnderFrom(ns, b, x))
    ensures Numbered(ns, x) ==> (x in Subtree(ns, pn, top, b) <==> Anc(ns, b, x))
    decreases top - ns[b].rpo
  {
    LinkFacts(g, ns, pn, b);
    hide TreeOk, Linked, FirstChild, NextChild, UnderFrom, Anc, HasParent;
    var child, sib := pn[b].child, pn[b].sibling;
    if child.Some? {
      WalkContents(g, ns, pn, top, child.value, x);
    }
    if sib.Some? {
      WalkContents(g, ns, pn, top, sib.value, x);
    }
    if x in Walk(ns, pn, top, b) {
      WalkParts(ns, pn, top, b);
    }
    if Numbered(ns, x) {
      SubtreeContents(ns, pn, top, b, x);
      SiblingContents(ns, pn, top, b, x);
    }
  }

  lemma {:induction false} WalkParts(ns: seq<Node>, pn: seq<PreorderNode>, top: nat, b: Block)
    requires b < |ns| && |pn| == |ns| && ns[b].rpo < top
    ensures Walk(ns, pn, top, b) == Subtree(ns, pn, top, b) + WalkFrom(ns, pn, top, b, pn[b].sibling)
    ensures Subtree(ns, pn, top, b) == [b] + WalkFrom(ns, pn, top, b, pn[b].child)
  {
  }

  lemma LinkFacts(g: Graph, ns: seq<Node>, pn: seq<PreorderNode>, b: Block)
    requires TreeOk(g, ns) && Linked(g, ns, pn, 0) && Numbered(ns, b)
    ensures |pn| == |ns|
    ensures FirstChild(ns, b, pn[b].child, 0)
    ensures if HasParent(ns, b) then NextChild(ns, b, pn[b].sibling) else pn[b].sibling.None?
    ensures pn[b].child.Some? ==> Numbered(ns, pn[b].child.value) && ns[b].rpo < ns[pn[b].child.value].rpo
    ensures pn[b].sibling.Some? ==> Numbered(ns, pn[b].sibling.value) && ns[b].rpo < ns[pn[b].sibling.value].rpo
    ensures forall c: Block, d: Block :: Numbered(ns, c) && Numbered(ns, d) && ns[c].rpo == ns[d].rpo ==> c == d
  {
    assert ChildLink(ns, pn, b, 0) && SiblingLink(ns, pn, b, 0);
  }

  lemma {:induction false} SubtreeContents(ns: seq<Node>, pn: seq<PreorderNode>, top: nat, b: Block, x: Block)
    requires |pn| == |ns| && NumbersBelowTop(ns, top) && Numbered(ns, b) && Numbered(ns, x)
    requires FirstChild(ns, b, pn[b].child, 0)
    requires pn[b].child.Some? ==> (x in Walk(ns, pn, top, pn[b].child.value) <==> UnderFrom(ns, pn[b].child.value, x))
    ensures x in Subtree(ns, pn, top, b) <==> Anc(ns, b, x)
  {
    var child := pn[b].child;
    if Anc(ns, b, x) && x != b {
      var c := AncViaChild(ns, b, x);
      assert SameLevel(ns, child.value, c);
    }
    if child.Some? && UnderFrom(ns, child.value, x) {
      var c: Block :| SameLevel(ns, child.value, c) && Anc(ns, c, x);
      ChildAnc(ns, c, b, x);
    }
  }

  lemma {:induction false} SiblingContents(ns: seq<Node>, pn: seq<PreorderNode>, top: nat, b: Block, x: Block)
    requires |pn| == |ns| && NumbersBelowTop(ns, top) && Numbered(ns, b) && Numbered(ns, x)
    requires if HasParent(ns, b) then NextChild(ns, b, pn[b].sibling) else pn[b].sibling.None?
    requires forall c: Block, d: Block :: Numbered(ns, c) && Numbered(ns, d) && ns[c].rpo == ns[d].rpo ==> c == d
    requires x in Subtree(ns, pn, top, b) <==> Anc(ns, b, x)
    requires pn[b].sibling.Some? ==>
               (x in Walk(ns, pn, top, pn[b].sibling.value) <==> UnderFrom(ns, pn[b].sibling.value, x))
    ensures x in Walk(ns, pn, top, b) <==> UnderFrom(ns, b, x)
  {
    var sib := pn[b].sibling;
    assert SameLevel(ns, b, b);
    if UnderFrom(ns, b, x) && !Anc(ns, b, x) {
      var c: Block :| SameLevel(ns, b, c) && Anc(ns, c, x);
      assert SameLevel(ns, sib.value, c);
    }
    if sib.Some? && UnderFrom(ns, sib.value, x) {
      var c: Block :| SameLevel(ns, sib.value, c) && Anc(ns, c, x);
      assert SameLevel(ns, b, c);
    }
  }

  /** The block, its subtree and the part after it share no block. */
  lemma {:induction false} WalkPartsDisjoint(g: Graph, ns: seq<Node>, pn: seq<PreorderNode>,
          top: nat, b: Block, x: Block)
    requires TreeOk(g, ns) && Linked(g, ns, pn, 0) && NumbersBelowTop(ns, top) && Numbered(ns, b)
    ensures x in WalkFrom(ns, pn, top, b, pn[b].child) ==> x != b && x !in WalkFrom(ns, pn, top, b, pn[b].sibling)
    ensures x in WalkFrom(ns, pn, top, b, pn[b].sibling) ==> x != b
  {
    LinkFacts(g, ns, pn, b);
    var child, sib := pn[b].child, pn[b].sibling;
    if x in WalkFrom(ns, pn, top, b, child) {
      WalkContents(g, ns, pn, top, child.value, x);
      var c: Block :| SameLevel(ns, child.value, c) && Anc(ns, c, x);
      ChildAnc(ns, c, b, x);
      AncNum(g, ns, c, x);
    }
    if x in WalkFrom(ns, pn, top, b, sib) {
      WalkContents(g, ns, pn, top, sib.value, x);
      var c: Block :| SameLevel(ns, sib.value, c) && Anc(ns, c, x);
      if Anc(ns, b, x) {
        ChildrenDisjoint(g, ns, b, c, Par(ns, b), x);
      }
    }
  }

  lemma {:induction false} WalkNoDup(g: Graph, ns: seq<Node>, pn: seq<PreorderNode>, top: nat, b: Block)
    requires TreeOk(g, ns) && Linked(g, ns, pn, 0) && NumbersBelowTop(ns, top) && Numbered(ns, b)
    ensures NoDup(Walk(ns, pn, top, b))
    decreases top - ns[b].rpo
  {
    LinkFacts(g, ns, pn, b);
    var child, sib := pn[b].child, pn[b].sibling;
    if child.Some? {
      WalkNoDup(g, ns, pn, top, child.value);
    }
    if sib.Some? {
      WalkNoDup(g, ns, pn, top, sib.value);
    }
    forall x: Block {
      WalkPartsDisjoint(g, ns, pn, top, b, x);
    }
    hide TreeOk, Linked, FirstChild, NextChild;
    NoDupConcat([b], WalkFrom(ns, pn, top, b, child));
    NoDupConcat(Subtree(ns, pn, top, b), WalkFrom(ns, pn, top, b, sib));
  }

  lemma NoDupConcat<T>(s: seq<T>, t: seq<T>)
    requires NoDup(s) && NoDup(t) && forall x :: x in s ==> x !in t
    ensures NoDup(s + t)
  {
    forall i, j | 0 <= i < j < |s + t| ensures (s + t)[i] != (s + t)[j] {
      if i < |s| <= j {
        assert s[i] in s && t[j - |s|] in t;
      }
    }
  }

  /** `sub` occurs in `w` at position `i`. */
  predicate PartAt<T(==)>(w: seq<T>, i: nat, sub: seq<T>) {
    i + |sub| <= |w| && w[i..i + |sub|] == sub
  }

  lemma PartOfPart<T>(w: seq<T>, u: seq<T>, sub: seq<T>, k: nat, i: nat)
    requires PartAt(w, k, u) && PartAt(u, i, sub)
    ensures PartAt(w, k + i, sub)
  {
    assert forall j :: 0 <= j < |sub| ==> w[k + i + j] == u[i + j] == sub[j];
  }

  lemma PartOfSum<T>(s: seq<T>, t: seq<T>, u: seq<T>)
    ensures PartAt(s + t + u, 0, s) && PartAt(s + t + u, |s|, t) && PartAt(s + t + u, |s + t|, u)
    ensures PartAt(s + t + u, 0, s + t)
  {
  }

  /** The subtree of a visited block is a contiguous part of the walk. */
  lemma {:induction false} SubtreeInWalk(g: Graph, ns: seq<Node>, pn: seq<PreorderNode>,
          top: nat, b: Block, a: Block) returns (i: nat)
    requires TreeOk(g, ns) && Linked(g, ns, pn, 0) && NumbersBelowTop(ns, top) && Numbered(ns, b)
    requires Numbered(ns, a) && a in Walk(ns, pn, top, b)
    ensures |pn| == |ns| && ns[a].rpo < top && PartAt(Walk(ns, pn, top, b), i, Subtree(ns, pn, top, a))
    decreases top - ns[b].rpo
  {
    LinkFacts(g, ns, pn, b);
    WalkParts(ns, pn, top, b);
    var child, sib := pn[b].child, pn[b].sibling;
    PartOfSum([b], WalkFrom(ns, pn, top, b, child), WalkFrom(ns, pn, top, b, sib));
    assert ns[a].rpo < top;
    hide TreeOk, Linked, FirstChild, NextChild, HasParent, Walk, Subtree, NumbersBelowTop, PartAt;
    var w, sub := Walk(ns, pn, top, b), Subtree(ns, pn, top, a);
    if a == b {
      i := 0;
    } else if a in WalkFrom(ns, pn, top, b, child) {
      i := SubtreeInWalk(g, ns, pn, top, child.value, a);
      PartOfPart(w, Walk(ns, pn, top, child.value), sub, 1, i);
      i := 1 + i;
    } else {
      i := SubtreeInWalk(g, ns, pn, top, sib.value, a);
      PartOfPart(w, Walk(ns, pn, top, sib.value), sub, |Subtree(ns, pn, top, b)|, i);
      i := |Subtree(ns, pn, top, b)| + i;
    }
  }

  // Numbers

  /** The positions of `walk`, from 1, are the numbers of its blocks. */
  ghost predicate NumbersFollow(pn: seq<PreorderNode>, walk: seq<Block>) {
    forall i :: 0 <= i < |walk| ==> walk[i] < |pn| && pn[walk[i]].preNumber == i + 1
  }

  ghost predicate Attained(ns: seq<Node>, pn: seq<PreorderNode>, b: Block) {
    b < |pn| && exists x: Block :: Numbered(ns, x) && x < |pn| && Anc(ns, b, x) && pn[x].preNumber == pn[b].preMax
  }

  /** `preMax` is the largest number in the subtree, as far as the children numbered `lo` or more show. */
  ghost predicate MaxInv(ns: seq<Node>, pn: seq<PreorderNode>, lo: nat) {
    && |pn| == |ns|
    && (forall b: Block :: Numbered(ns, b) ==> pn[b].preNumber <= pn[b].preMax)
    && (forall b: Block {:trigger Attained(ns, pn, b)} :: Numbered(ns, b) ==> Attained(ns, pn, b))
    && (forall c: Block {:trigger MaxPassed(ns, pn, c)} :: Numbered(ns, c) && ns[c].rpo >= lo ==> MaxPassed(ns, pn, c))
  }

  /** The parent of `c` has taken over the maximum of `c`. */
  ghost predicate MaxPassed(ns: seq<Node>, pn: seq<PreorderNode>, c: Block) {
    HasParent(ns, c) ==> c < |pn| && Par(ns, c) < |pn| && pn[c].preMax <= pn[Par(ns, c)].preMax
  }

  lemma {:induction false} MaxIsUpperBound(g: Graph, ns: seq<Node>, pn: seq<PreorderNode>, b: Block, x: Block)
    requires TreeOk(g, ns) && MaxInv(ns, pn, 0) && Numbered(ns, x) && Anc(ns, b, x)
    ensures Numbered(ns, b) && pn[x].preMax <= pn[b].preMax
    decreases ns[x].rpo
  {
    if x != b {
      assert MaxPassed(ns, pn, x);
      MaxIsUpperBound(g, ns, pn, b, Par(ns, x));
    }
  }

  /** The interval test. */
  predicate FastDominates(pn: seq<PreorderNode>, a: Block, b: Block)
    requires a < |pn| && b < |pn|
  {
    pn[a].preNumber <= pn[b].preNumber && pn[a].preMax >= pn[b].preMax
  }

  /** The tree with its links and numbers, apart from what the tree means. */
  ghost predicate NumberedTree(g: Graph, ns: seq<Node>, pn: seq<PreorderNode>, top: nat) {
    && TreeOk(g, ns) && Linked(g, ns, pn, 0) && NumbersBelowTop(ns, top) && MaxInv(ns, pn, 0)
    && NumbersFollow(pn, Walk(ns, pn, top, g.entry))
  }

  /** Every numbered block is visited, so the walk covers the tree. */
  lemma {:induction false} WalkCovers(g: Graph, ns: seq<Node>, pn: seq<PreorderNode>, top: nat, b: Block)
    requires TreeOk(g, ns) && Linked(g, ns, pn, 0) && NumbersBelowTop(ns, top)
    ensures b in Walk(ns, pn, top, g.entry) <==> Numbered(ns, b)
  {
    WalkContents(g, ns, pn, top, g.entry, b);
    if Numbered(ns, b) {
      EntryAnc(g, ns, b);
      assert SameLevel(ns, g.entry, g.entry);
    }
  }

  /** `i` is where the subtree of `a` starts in the walk. */
  lemma SubtreePlace(g: Graph, ns: seq<Node>, pn: seq<PreorderNode>, top: nat, a: Block) returns (i: nat)
    requires NumberedTree(g, ns, pn, top) && Numbered(ns, a)
    ensures |pn| == |ns| && ns[a].rpo < top
    ensures PartAt(Walk(ns, pn, top, g.entry), i, Subtree(ns, pn, top, a))
    ensures pn[a].preNumber == i + 1
  {
    WalkCovers(g, ns, pn, top, a);
    i := SubtreeInWalk(g, ns, pn, top, g.entry, a);
    assert Walk(ns, pn, top, g.entry)[i] == Subtree(ns, pn, top, a)[0];
  }

  /** A block lies in a slice of the walk exactly when its number does. */
  lemma NumberInSlice(pn: seq<PreorderNode>, w: seq<Block>, i: nat, n: nat, x: Block)
    requires NumbersFollow(pn, w) && i + n <= |w| && x in w && x < |pn|
    ensures x in w[i..i + n] <==> i + 1 <= pn[x].preNumber <= i + n
  {
    var j :| 0 <= j < |w| && w[j] == x;
    if x in w[i..i + n] {
      var k :| 0 <= k < n && w[i..i + n][k] == x;
      assert w[i + k] == x;
    }
    if i <= j < i + n {
      assert w[i..i + n][j - i] == x;
    }
  }

  lemma {:induction false} InIntervalIff(g: Graph, ns: seq<Node>, pn: seq<PreorderNode>, top: nat,
          a: Block, i: nat, x: Block)
    requires NumberedTree(g, ns, pn, top) && Numbered(ns, a) && Numbered(ns, x)
    requires |pn| == |ns| && ns[a].rpo < top && PartAt(Walk(ns, pn, top, g.entry), i, Subtree(ns, pn, top, a))
    ensures Anc(ns, a, x) <==> i + 1 <= pn[x].preNumber <= i + |Subtree(ns, pn, top, a)|
  {
    hide TreeOk, Linked, NumbersBelowTop, MaxInv, NumbersFollow, Walk, Subtree, WalkFrom, Anc, HasParent;
    WalkCovers(g, ns, pn, top, x);
    WalkContents(g, ns, pn, top, a, x);
    NumberInSlice(pn, Walk(ns, pn, top, g.entry), i, |Subtree(ns, pn, top, a)|, x);
  }

  /** The blocks under `a` are exactly those numbered in the interval of `a`. */
  lemma {:induction false} IntervalIsSubtree(g: Graph, ns: seq<Node>, pn: seq<PreorderNode>,
          top: nat, a: Block, b: Block)
    requires NumberedTree(g, ns, pn, top) && Numbered(ns, a) && Numbered(ns, b)
    ensures |pn| == |ns| && (Anc(ns, a, b) <==> pn[a].preNumber <= pn[b].preNumber <= pn[a].preMax)
  {
    hide TreeOk, Linked, NumbersBelowTop, NumbersFollow, Walk, Subtree, WalkFrom, Anc, HasParent, PartAt;
    var i := SubtreePlace(g, ns, pn, top, a);
    InIntervalIff(g, ns, pn, top, a, i, b);
    if Anc(ns, a, b) {
      MaxIsUpperBound(g, ns, pn, a, b);
    }
    assert Attained(ns, pn, a);
    var x: Block :| Numbered(ns, x) && x < |pn| && Anc(ns, a, x) && pn[x].preNumber == pn[a].preMax;
    InIntervalIff(g, ns, pn, top, a, i, x);
  }

  /** What `compute` leaves behind. */
  ghost predicate IsPreorder(dfg: Dfg, ns: seq<Node>, post: seq<Block>, pn: seq<PreorderNode>) {
    && IsDomTree(dfg, ns, post)
    && NumberedTree(GraphOf(dfg), ns, pn, (|post| + 2) * STRIDE)
    && (forall b: Block :: b < |pn| && !Numbered(ns, b) ==> pn[b].preNumber == 0 && pn[b].preMax == 0)
  }

  /** The constant-time check agrees with dominance over all paths, for reachable blocks; it fails
      between a reachable and an unreachable block, and holds between any two unreachable ones. */
  lemma FastIsDominance(dfg: Dfg, ns: seq<Node>, post: seq<Block>, pn: seq<PreorderNode>, a: Block, b: Block)
    requires IsPreorder(dfg, ns, post, pn) && a < |pn| && b < |pn|
    ensures FastDominates(pn, a, b) <==>
            if Reachable(GraphOf(dfg), b) then Dom(GraphOf(dfg), a, b) else !Reachable(GraphOf(dfg), a)
  {
    var g := GraphOf(dfg);
    TreeFacts(dfg, ns, post);
    NumberedPositive(dfg, ns, post, pn, a);
    NumberedPositive(dfg, ns, post, pn, b);
    hide IsDomTree, Linked, TreeInv, Walk, NumbersFollow;
    if Reachable(g, b) {
      TreeIsDominance(dfg, ns, post, a, b);
      if Numbered(ns, a) {
        IntervalIsSubtree(g, ns, pn, (|post| + 2) * STRIDE, a, b);
        if Anc(ns, a, b) {
          MaxIsUpperBound(g, ns, pn, a, b);
        }
      } else if Anc(ns, a, b) {
        AncNum(g, ns, a, b);
      }
    }
  }

  lemma NumberedPositive(dfg: Dfg, ns: seq<Node>, post: seq<Block>, pn: seq<PreorderNode>, b: Block)
    requires IsPreorder(dfg, ns, post, pn) && b < |pn|
    ensures Numbered(ns, b) <==> pn[b].preNumber > 0
    ensures pn[b].preNumber <= pn[b].preMax
    ensures !Numbered(ns, b) ==> pn[b].preMax == 0
  {
    WalkCovers(GraphOf(dfg), ns, pn, (|post| + 2) * STRIDE, b);
    if Numbered(ns, b) {
      var w := Walk(ns, pn, (|post| + 2) * STRIDE, dfg.entry);
      var j :| 0 <= j < |w| && w[j] == b;
    }
  }

  /** The documentation promises the answer of the tree walk.  That holds exactly when the blocks are
      equal or one of them is reachable. */
  lemma FastAgreesWithTree(dfg: Dfg, ns: seq<Node>, post: seq<Block>, pn: seq<PreorderNode>, a: Block, b: Block)
    requires IsPreorder(dfg, ns, post, pn) && a < |pn| && b < |pn|
    ensures (FastDominates(pn, a, b) <==> DominatesSpec(dfg, AtBlock(a), AtBlock(b)))
            <==> (a == b || Reachable(GraphOf(dfg), a) || Reachable(GraphOf(dfg), b))
  {
    FastIsDominance(dfg, ns, post, pn, a, b);
    if Reachable(GraphOf(dfg), b) {
      PointDomIffDom(dfg, AtBlock(a), AtBlock(b));
      DomRefl(GraphOf(dfg), a);
    }
  }

  // Step 1: child and sibling links

  /** Three blocks that return, two of them never reached. */
  function Islands(): Dfg {
    var b := BlockData([], [InstNode(Ret([]), [])]);
    Dfg(0, [b, b, b], map[], map[])
  }

  /** The constant-time check claims that one unreachable block dominates another. */
  lemma FastDisagrees(ns: seq<Node>, post: seq<Block>, pn: seq<PreorderNode>)
    requires IsPreorder(Islands(), ns, post, pn) && |pn| == 3
    ensures Islands().WellFormed()
    ensures FastDominates(pn, 1, 2) && !DominatesSpec(Islands(), AtBlock(1), AtBlock(2))
  {
    hide IsPreorder, Islands, GraphOf, FastDominates, Reachable;
    IslandsApart();
    FastIsDominance(Islands(), ns, post, pn, 1, 2);
  }

  lemma NoBridge(x: Block, y: Block)
    ensures !Edge(GraphOf(Islands()), x, y)
  {
    hide GraphOf, Edge, SuccSet;
    EdgeIff(Islands(), x, y);
    NoSuccs(Islands(), x);
  }

  lemma IslandsApart()
    ensures Islands().WellFormed() && Islands().NumBlocks() == 3
    ensures forall b: Block :: Reachable(GraphOf(Islands()), b) <==> b == 0
  {
    hide GraphOf, Edge;
    var g := GraphOf(Islands());
    EntryReachable(g);
    forall b: Block | Reachable(g, b) ensures b == 0 {
      var p: seq<nat> :| PathTo(g, g.entry, p, b);
      if |p| > 1 {
        NoBridge(Last(Front(p)), b);
      }
    }
  }

  lemma LinkWiden(g: Graph, ns: seq<Node>, pn: seq<PreorderNode>, lo: nat, lo': nat)
    requires Linked(g, ns, pn, lo) && lo' <= lo
    requires forall b: Block :: HasParent(ns, b) && ns[b].rpo >= lo' ==> ns[b].rpo >= lo
    ensures Linked(g, ns, pn, lo')
  {
    forall p: Block | p < |ns| ensures ChildLink(ns, pn, p, lo') {
      assert ChildLink(ns, pn, p, lo);
    }
    forall b: Block | b < |ns| ensures SiblingLink(ns, pn, b, lo') {
      assert SiblingLink(ns, pn, b, lo);
    }
  }

  lemma LinkNone(g: Graph, ns: seq<Node>, top: nat)
    requires NumbersBelowTop(ns, top)
    ensures Linked(g, ns, seq(|ns|, _ => EMPTY), top) && NoNumbers(seq(|ns|, _ => EMPTY))
  {
  }

  /** `pn` with `b` put in front of the children of its parent. */
  function LinkFront(ns: seq<Node>, pn: seq<PreorderNode>, b: Block): seq<PreorderNode>
    requires |pn| == |ns| && HasParent(ns, b)
  {
    var p := Par(ns, b);
    pn[p := pn[p].(child := Some(b))][b := pn[b].(sibling := pn[p].child)]
  }

  predicate NoNumbers(pn: seq<PreorderNode>) {
    forall b :: 0 <= b < |pn| ==> pn[b].preNumber == 0 && pn[b].preMax == 0
  }

  /** Linking the next block of the post-order in front of its later siblings. */
  lemma LinkStep(g: Graph, ns: seq<Node>, pn: seq<PreorderNode>, lo: nat, b: Block)
    requires Linked(g, ns, pn, lo) && HasParent(ns, b) && ns[b].rpo < lo && Numbered(ns, b)
    requires forall x: Block :: x < |ns| && ns[b].rpo <= ns[x].rpo < lo ==> x == b
    ensures Linked(g, ns, LinkFront(ns, pn, b), ns[b].rpo)
    ensures NoNumbers(pn) ==> NoNumbers(LinkFront(ns, pn, b))
  {
    var p := Par(ns, b);
    var k := ns[b].rpo;
    var pn' := LinkFront(ns, pn, b);
    assert ChildLink(ns, pn, p, lo);
    forall q: Block | q < |ns| ensures ChildLink(ns, pn', q, k) {
      assert ChildLink(ns, pn, q, lo);
      assert q == p ==> pn'[q].child == Some(b);
      assert q != p ==> pn'[q].child == pn[q].child;
    }
    forall x: Block | x < |ns| ensures SiblingLink(ns, pn', x, k) {
      assert SiblingLink(ns, pn, x, lo);
      assert x == b ==> pn'[x].sibling == pn[p].child;
      assert x != b ==> pn'[x].sibling == pn[x].sibling;
    }
  }

  /** After the first `k` blocks of the post-order. */
  ghost predicate LinkState(dfg: Dfg, ns: seq<Node>, post: seq<Block>, k: nat,
          pn: seq<PreorderNode>, stack: seq<Block>) {
    && k <= |post| && |pn| == |ns|
    && Linked(GraphOf(dfg), ns, pn, (|post| + 2 - k) * STRIDE) && NoNumbers(pn)
    && stack == if k == |post| then [dfg.entry] else []
  }

  lemma LinkBegin(dfg: Dfg, ns: seq<Node>, post: seq<Block>)
    requires IsDomTree(dfg, ns, post)
    ensures LinkState(dfg, ns, post, 0, seq(|ns|, _ => EMPTY), [])
  {
    TreeBounds(dfg, ns, post);
    LinkNone(GraphOf(dfg), ns, (|post| + 2) * STRIDE);
  }

  lemma LinkNext(dfg: Dfg, ns: seq<Node>, post: seq<Block>, k: nat, pn: seq<PreorderNode>, stack: seq<Block>)
    requires IsDomTree(dfg, ns, post) && k < |post| && LinkState(dfg, ns, post, k, pn, stack)
    ensures var b := post[k];
            && b < |ns| == |pn|
            && match ns[b].idom
               case Some(i) =>
                 i.block < |ns| &&
                 var linked := pn[i.block := pn[i.block].(child := Some(b))];
                 var next := linked[b := linked[b].(sibling := pn[i.block].child)];
                 LinkState(dfg, ns, post, k + 1, next, stack)
               case None => LinkState(dfg, ns, post, k + 1, pn, stack + [b])
  {
    PlaceFacts(dfg, ns, post, k);
    hide IsDomTree, Linked, NoNumbers;
    var b := post[k];
    if ns[b].idom.Some? {
      LinkStep(GraphOf(dfg), ns, pn, (|post| + 2 - k) * STRIDE, b);
      assert Par(ns, b) != b;
    } else {
      EntryHasNoParent(ns, b);
      LinkWiden(GraphOf(dfg), ns, pn, (|post| + 2 - k) * STRIDE, ns[b].rpo);
    }
  }

  lemma EntryHasNoParent(ns: seq<Node>, b: Block)
    requires b < |ns| && ns[b].idom.None?
    ensures !HasParent(ns, b)
  {
  }

  lemma LinkEnd(dfg: Dfg, ns: seq<Node>, post: seq<Block>, pn: seq<PreorderNode>, stack: seq<Block>)
    requires IsDomTree(dfg, ns, post) && LinkState(dfg, ns, post, |post|, pn, stack)
    ensures |pn| == |ns| && Linked(GraphOf(dfg), ns, pn, 0) && NoNumbers(pn) && stack == [dfg.entry]
  {
    TreeBounds(dfg, ns, post);
    LinkWiden(GraphOf(dfg), ns, pn, 2 * STRIDE, 0);
  }

  // Step 2: numbers

  predicate SameLinks(pn: seq<PreorderNode>, pn': seq<PreorderNode>) {
    |pn| == |pn'| && forall b :: 0 <= b < |pn| ==> pn'[b].child == pn[b].child && pn'[b].sibling == pn[b].sibling
  }

  lemma {:induction false} WalkSameLinks(ns: seq<Node>, pn: seq<PreorderNode>,
          pn': seq<PreorderNode>, top: nat, b: Block)
    requires SameLinks(pn, pn')
    ensures Walk(ns, pn', top, b) == Walk(ns, pn, top, b)
    decreases if b < |ns| && ns[b].rpo < top then top - ns[b].rpo else 0
  {
    if b < |ns| && |pn| == |ns| && ns[b].rpo < top {
      FromSameLinks(ns, pn, pn', top, b, pn[b].child);
      FromSameLinks(ns, pn, pn', top, b, pn[b].sibling);
    }
  }

  lemma {:induction false} FromSameLinks(ns: seq<Node>, pn: seq<PreorderNode>, pn': seq<PreorderNode>, top: nat,
          b: Block, next: Option<Block>)
    requires SameLinks(pn, pn') && b < |ns| && ns[b].rpo < top
    ensures WalkFrom(ns, pn', top, b, next) == WalkFrom(ns, pn, top, b, next)
    decreases top - ns[b].rpo, 0
  {
    if next.Some? && next.value < |ns| && ns[b].rpo < ns[next.value].rpo < top {
      WalkSameLinks(ns, pn, pn', top, next.value);
    }
  }

  lemma LinkedSameLinks(g: Graph, ns: seq<Node>, pn: seq<PreorderNode>, pn': seq<PreorderNode>)
    requires SameLinks(pn, pn') && Linked(g, ns, pn, 0)
    ensures Linked(g, ns, pn', 0)
  {
    forall p: Block | p < |ns| ensures ChildLink(ns, pn', p, 0) {
      assert ChildLink(ns, pn, p, 0);
    }
    forall b: Block | b < |ns| ensures SiblingLink(ns, pn', b, 0) {
      assert SiblingLink(ns, pn, b, 0);
    }
  }

  /** What remains to be visited from a stack. */
  ghost function Rest(ns: seq<Node>, pn: seq<PreorderNode>, top: nat, stack: seq<Block>): seq<Block> {
    if |stack| == 0 then [] else Walk(ns, pn, top, Last(stack)) + Rest(ns, pn, top, Front(stack))
  }

  function Push(stack: seq<Block>, b: Option<Block>): seq<Block> {
    if b.Some? then stack + [b.value] else stack
  }

  lemma {:induction false} RestPush(ns: seq<Node>, pn: seq<PreorderNode>, top: nat,
          stack: seq<Block>, b: Block, next: Option<Block>)
    requires b < |ns| && ns[b].rpo < top
    requires next.Some? ==> next.value < |ns| && ns[b].rpo < ns[next.value].rpo < top
    ensures Rest(ns, pn, top, Push(stack, next)) == WalkFrom(ns, pn, top, b, next) + Rest(ns, pn, top, stack)
  {
    if next.Some? {
      assert Front(stack + [next.value]) == stack;
    }
  }

  /** The links of `b` lead to larger numbers. */
  ghost predicate LinksDown(ns: seq<Node>, pn: seq<PreorderNode>, top: nat, b: Block) {
    && |pn| == |ns| && b < |ns| && ns[b].rpo < top
    && (pn[b].child.Some? ==> pn[b].child.value < |ns| && ns[b].rpo < ns[pn[b].child.value].rpo < top)
    && (pn[b].sibling.Some? ==> pn[b].sibling.value < |ns| && ns[b].rpo < ns[pn[b].sibling.value].rpo < top)
  }

  /** Visiting the top of the stack: the rest of the walk loses exactly that block. */
  lemma {:induction false} RestStep(ns: seq<Node>, pn: seq<PreorderNode>, top: nat, stack: seq<Block>)
    requires |stack| > 0 && LinksDown(ns, pn, top, Last(stack))
    ensures var b := Last(stack);
            Rest(ns, pn, top, stack) == [b] + Rest(ns, pn, top, Push(Push(Front(stack), pn[b].sibling), pn[b].child))
  {
    hide Walk, WalkFrom, Subtree, Push;
    var b := Last(stack);
    WalkParts(ns, pn, top, b);
    RestPush(ns, pn, top, Front(stack), b, pn[b].sibling);
    RestPush(ns, pn, top, Push(Front(stack), pn[b].sibling), b, pn[b].child);
    var x, y := WalkFrom(ns, pn, top, b, pn[b].child), WalkFrom(ns, pn, top, b, pn[b].sibling);
    var z := Rest(ns, pn, top, Front(stack));
    assert (([b] + x) + y) + z == [b] + (x + (y + z));
  }

  /** The blocks of `walked` carry their positions, counted from 1; no other block has a number. */
  ghost predicate NumberedSoFar(pn: seq<PreorderNode>, walked: seq<Block>) {
    && NumbersFollow(pn, walked)
    && (forall b: Block :: b < |pn| ==> pn[b].preMax == pn[b].preNumber)
    && (forall b: Block :: b < |pn| && b !in walked ==> pn[b].preNumber == 0)
  }

  lemma NumberOne(pn: seq<PreorderNode>, walked: seq<Block>, b: Block)
    requires NumberedSoFar(pn, walked) && b < |pn| && b !in walked
    ensures NumberedSoFar(pn[b := pn[b].(preNumber := |walked| + 1, preMax := |walked| + 1)], walked + [b])
  {
    var pn' := pn[b := pn[b].(preNumber := |walked| + 1, preMax := |walked| + 1)];
    forall i | 0 <= i < |walked + [b]|
      ensures (walked + [b])[i] < |pn'| && pn'[(walked + [b])[i]].preNumber == i + 1
    {
      if i < |walked| {
        assert walked[i] in walked;
      }
    }
  }

  // Step 3: maxima

  lemma MaxStart(g: Graph, ns: seq<Node>, pn: seq<PreorderNode>, top: nat)
    requires |pn| == |ns| && NumbersBelowTop(ns, top) && forall b: Block :: b < |pn| ==> pn[b].preMax == pn[b].preNumber
    ensures MaxInv(ns, pn, top)
  {
    forall b: Block | Numbered(ns, b) ensures Attained(ns, pn, b) {
      assert Anc(ns, b, b);
    }
  }

  /** `pn` after `b` has passed its maximum to its parent. */
  function PassMax(ns: seq<Node>, pn: seq<PreorderNode>, b: Block): seq<PreorderNode>
    requires |pn| == |ns| && HasParent(ns, b)
  {
    var p := Par(ns, b);
    pn[p := pn[p].(preMax := if pn[b].preMax > pn[p].preMax then pn[b].preMax else pn[p].preMax)]
  }

  lemma MaxStillAttained(ns: seq<Node>, pn: seq<PreorderNode>, b: Block, x: Block)
    requires |pn| == |ns| && Numbered(ns, b) && HasParent(ns, b) && Numbered(ns, x)
    requires Attained(ns, pn, b) && Attained(ns, pn, x)
    ensures Attained(ns, PassMax(ns, pn, b), x)
  {
    var p, pn' := Par(ns, b), PassMax(ns, pn, b);
    var y := if x == p && pn'[p].preMax == pn[b].preMax then b else x;
    var w: Block :| Numbered(ns, w) && w < |pn| && Anc(ns, y, w) && pn[w].preNumber == pn[y].preMax;
    if y != x {
      ChildAnc(ns, b, p, w);
    }
    assert pn'[w].preNumber == pn'[x].preMax;
  }

  lemma MaxStillPassed(ns: seq<Node>, pn: seq<PreorderNode>, b: Block, c: Block)
    requires |pn| == |ns| && HasParent(ns, b)
    requires Numbered(ns, c) && ns[c].rpo >= ns[b].rpo && (c == b || MaxPassed(ns, pn, c))
    ensures MaxPassed(ns, PassMax(ns, pn, b), c)
  {
    assert c != Par(ns, b);
  }

  /** Passing the maximum of the next block of the post-order to its parent. */
  lemma MaxStep(ns: seq<Node>, pn: seq<PreorderNode>, lo: nat, b: Block)
    requires MaxInv(ns, pn, lo) && Numbered(ns, b) && HasParent(ns, b)
    requires forall x: Block :: x < |ns| && ns[b].rpo <= ns[x].rpo < lo ==> x == b
    ensures MaxInv(ns, PassMax(ns, pn, b), ns[b].rpo)
  {
    hide MaxInv, Attained, MaxPassed, PassMax;
    MaxParts(ns, pn, lo, b);
    forall x: Block | Numbered(ns, x) ensures Attained(ns, PassMax(ns, pn, b), x) {
      MaxStepAttained(ns, pn, lo, b, x);
    }
    forall c: Block | Numbered(ns, c) && ns[c].rpo >= ns[b].rpo ensures MaxPassed(ns, PassMax(ns, pn, b), c) {
      MaxStepPassed(ns, pn, lo, b, c);
    }
    MaxRestate(ns, pn, lo, b);
  }

  lemma MaxStepAttained(ns: seq<Node>, pn: seq<PreorderNode>, lo: nat, b: Block, x: Block)
    requires MaxInv(ns, pn, lo) && |pn| == |ns| && Numbered(ns, b) && HasParent(ns, b) && Numbered(ns, x)
    ensures Attained(ns, PassMax(ns, pn, b), x)
  {
    hide MaxInv, Attained, PassMax, MaxPassed;
    MaxParts(ns, pn, lo, x);
    MaxParts(ns, pn, lo, b);
    MaxStillAttained(ns, pn, b, x);
  }

  lemma MaxStepPassed(ns: seq<Node>, pn: seq<PreorderNode>, lo: nat, b: Block, c: Block)
    requires MaxInv(ns, pn, lo) && |pn| == |ns| && Numbered(ns, b) && HasParent(ns, b) && Numbered(ns, c)
    requires ns[c].rpo >= ns[b].rpo && (ns[c].rpo < lo ==> c == b)
    ensures MaxPassed(ns, PassMax(ns, pn, b), c)
  {
    hide MaxInv, Attained, PassMax, MaxPassed;
    MaxParts(ns, pn, lo, c);
    MaxStillPassed(ns, pn, b, c);
  }

  lemma MaxParts(ns: seq<Node>, pn: seq<PreorderNode>, lo: nat, x: Block)
    requires MaxInv(ns, pn, lo)
    ensures |pn| == |ns|
    ensures Numbered(ns, x) ==> Attained(ns, pn, x)
    ensures Numbered(ns, x) && ns[x].rpo >= lo ==> MaxPassed(ns, pn, x)
  {
    assert Numbered(ns, x) ==> Attained(ns, pn, x);
    assert Numbered(ns, x) && ns[x].rpo >= lo ==> MaxPassed(ns, pn, x);
  }

  lemma MaxRestate(ns: seq<Node>, pn: seq<PreorderNode>, lo: nat, b: Block)
    requires MaxInv(ns, pn, lo) && HasParent(ns, b) && |pn| == |ns|
    requires forall x: Block {:trigger Attained(ns, PassMax(ns, pn, b), x)} ::
        Numbered(ns, x) ==> Attained(ns, PassMax(ns, pn, b), x)
    requires forall c: Block {:trigger MaxPassed(ns, PassMax(ns, pn, b), c)} ::
               Numbered(ns, c) && ns[c].rpo >= ns[b].rpo ==> MaxPassed(ns, PassMax(ns, pn, b), c)
    ensures MaxInv(ns, PassMax(ns, pn, b), ns[b].rpo)
  {
  }

  lemma MaxWiden(ns: seq<Node>, pn: seq<PreorderNode>, lo: nat, lo': nat)
    requires MaxInv(ns, pn, lo)
    requires forall b: Block :: Numbered(ns, b) && HasParent(ns, b) && ns[b].rpo >= lo' ==> ns[b].rpo >= lo
    ensures MaxInv(ns, pn, lo')
  {
    forall c: Block | Numbered(ns, c) && ns[c].rpo >= lo' ensures MaxPassed(ns, pn, c) {
      assert ns[c].rpo >= lo ==> MaxPassed(ns, pn, c);
    }
  }

  class DominatorTreePreorder {
    var nodes: seq<PreorderNode>
    var stack: seq<Block>

    constructor ()
      ensures nodes == [] && stack == []
    {
      nodes, stack := [], [];
    }

    method Compute(domtree: DominatorTree, dfg: Dfg)
      requires domtree.Describes(dfg) && stack == []
      modifies this
      ensures IsPreorder(dfg, domtree.nodes, domtree.postorder, nodes) && stack == []
    {
      LinkChildren(domtree, dfg);
      AssignNumbers(domtree, dfg);
      PropagateMaxima(domtree, dfg);
    }

    /** Step 1: follow the post-order, pushing each block in front of its siblings. */
    method LinkChildren(domtree: DominatorTree, dfg: Dfg)
      requires domtree.Describes(dfg) && stack == []
      modifies this
      ensures |nodes| == |domtree.nodes| && Linked(GraphOf(dfg), domtree.nodes, nodes, 0) && stack == [dfg.entry]
      ensures NoNumbers(nodes)
    {
      ghost var ns, post := domtree.nodes, domtree.postorder;
      hide *;
      DescribesTree(domtree, dfg);
      nodes := seq(|domtree.nodes|, _ => EMPTY);
      LinkBegin(dfg, ns, post);
      var k := 0;
      while k < |domtree.postorder|
        invariant 0 <= k <= |post| && LinkState(dfg, ns, post, k, nodes, stack)
      {
        var block := domtree.postorder[k];
        LinkNext(dfg, ns, post, k, nodes, stack);
        var idom := domtree.nodes[block].idom;
        if idom.Some? {
          var p := idom.value.block;
          var sib := nodes[p].child;
          nodes := nodes[p := nodes[p].(child := Some(block))];
          nodes := nodes[block := nodes[block].(sibling := sib)];
        } else {
          stack := stack + [block];
        }
        k := k + 1;
      }
      LinkEnd(dfg, ns, post, nodes, stack);
    }

    /** Step 2: number the blocks in a depth-first walk of the tree. */
    method AssignNumbers(domtree: DominatorTree, dfg: Dfg)
      requires domtree.Describes(dfg) && stack == [dfg.entry]
      requires |nodes| == |domtree.nodes| && Linked(GraphOf(dfg), domtree.nodes, nodes, 0)
      requires NoNumbers(nodes)
      modifies this
      ensures |nodes| == |domtree.nodes| && Linked(GraphOf(dfg), domtree.nodes, nodes, 0) && stack == []
      ensures NumberedSoFar(nodes, Walk(domtree.nodes, nodes, (|domtree.postorder| + 2) * STRIDE, dfg.entry))
    {
      ghost var g, ns, top, pn0 := GraphOf(dfg), domtree.nodes, (|domtree.postorder| + 2) * STRIDE, nodes;
      hide *;
      DescribesTree(domtree, dfg);
      TreeBounds(dfg, ns, domtree.postorder);
      VisitStart(g, ns, pn0, top);
      ghost var walked: seq<Block> := [];
      var n := 0;
      while |stack| > 0
        invariant n == |walked| && VisitState(g, ns, pn0, top, nodes, walked, stack)
        decreases |Rest(ns, pn0, top, stack)|
      {
        var block := stack[|stack| - 1];
        ghost var pn := nodes;
        VisitStep(g, ns, pn0, top, nodes, walked, stack);
        n := n + 1;
        nodes := nodes[block := nodes[block].(preNumber := n, preMax := n)];
        assert nodes[block].sibling == pn[block].sibling && nodes[block].child == pn[block].child;
        stack := stack[..|stack| - 1];
        stack := Push(stack, nodes[block].sibling);
        stack := Push(stack, nodes[block].child);
        walked := walked + [block];
      }
      VisitEnd(g, ns, pn0, top, nodes, walked);
    }

    /** Step 3: carry the maxima up; children come before their parent in the post-order. */
    method PropagateMaxima(domtree: DominatorTree, dfg: Dfg)
      requires domtree.Describes(dfg)
      requires |nodes| == |domtree.nodes| && Linked(GraphOf(dfg), domtree.nodes, nodes, 0)
      requires NumberedSoFar(nodes, Walk(domtree.nodes, nodes, (|domtree.postorder| + 2) * STRIDE, dfg.entry))
      modifies this`nodes
      ensures IsPreorder(dfg, domtree.nodes, domtree.postorder, nodes)
    {
      ghost var ns, post, pn0 := domtree.nodes, domtree.postorder, nodes;
      hide *;
      DescribesTree(domtree, dfg);
      MaxBegin(dfg, ns, post, nodes);
      var k := 0;
      while k < |domtree.postorder|
        invariant 0 <= k <= |post| && MaxState(ns, post, k, pn0, nodes)
      {
        var block := domtree.postorder[k];
        MaxNext(dfg, ns, post, k, pn0, nodes);
        var idom := domtree.nodes[block].idom;
        if idom.Some? {
          var p := idom.value.block;
          var preMax := if nodes[block].preMax > nodes[p].preMax then nodes[block].preMax else nodes[p].preMax;
          nodes := nodes[p := nodes[p].(preMax := preMax)];
        }
        k := k + 1;
      }
      PreorderDone(dfg, ns, post, pn0, nodes);
    }

    /** Dominance between blocks in constant time. */
    function Dominates(a: Block, b: Block): bool
      requires a < |nodes| && b < |nodes|
      reads this
    {
      FastDominates(nodes, a, b)
    }
  }

  lemma DescribesTree(domtree: DominatorTree, dfg: Dfg)
    requires domtree.Describes(dfg)
    ensures IsDomTree(dfg, domtree.nodes, domtree.postorder)
  {
  }

  lemma TreeBounds(dfg: Dfg, ns: seq<Node>, post: seq<Block>)
    requires IsDomTree(dfg, ns, post)
    ensures |ns| == dfg.NumBlocks() && TreeOk(GraphOf(dfg), ns) && Numbered(ns, dfg.entry)
    ensures NumbersBelowTop(ns, (|post| + 2) * STRIDE)
    ensures forall b: Block :: b < |ns| && ns[b].idom.Some? ==> HasParent(ns, b)
    ensures forall b: Block :: b < |ns| && HasParent(ns, b) ==> ns[b].rpo >= 2 * STRIDE
    ensures forall b: Block :: b < |ns| && !Numbered(ns, b) ==> ns[b] == Node(0, None)
  {
    TreeFacts(dfg, ns, post);
    forall b: Block | b < |ns| ensures ns[b].rpo < (|post| + 2) * STRIDE {
      if b in post {
        var j :| 0 <= j < |post| && post[j] == b;
      }
    }
    forall b: Block | b < |ns| && ns[b].idom.Some? ensures HasParent(ns, b) {
    }
    forall b: Block | b < |ns| && HasParent(ns, b) ensures ns[b].rpo >= 2 * STRIDE {
      var j :| 0 <= j < |post| && post[j] == b;
    }
  }

  lemma PlaceFacts(dfg: Dfg, ns: seq<Node>, post: seq<Block>, k: nat)
    requires IsDomTree(dfg, ns, post) && k < |post|
    ensures Numbered(ns, post[k]) && ns[post[k]].rpo == (|post| + 1 - k) * STRIDE
    ensures forall x: Block :: x < |ns| && ns[post[k]].rpo <= ns[x].rpo < (|post| + 2 - k) * STRIDE ==> x == post[k]
    ensures ns[post[k]].idom.None? <==> post[k] == dfg.entry
    ensures post[k] == dfg.entry <==> k == |post| - 1
    ensures ns[post[k]].idom.Some? ==> HasParent(ns, post[k])
  {
    hide RetreatsClose, Settled, DomInv, ParBound, PredOrdered, HasLaterPred, Reachable, Anc;
    forall x: Block | x < |ns| && ns[post[k]].rpo <= ns[x].rpo < (|post| + 2 - k) * STRIDE ensures x == post[k] {
      var j :| 0 <= j < |post| && post[j] == x;
    }
    assert post[k] != dfg.entry ==> HasParent(ns, post[k]);
  }

  lemma LinksGoDown(g: Graph, ns: seq<Node>, pn: seq<PreorderNode>, top: nat, b: Block)
    requires TreeOk(g, ns) && Linked(g, ns, pn, 0) && NumbersBelowTop(ns, top) && Numbered(ns, b)
    ensures LinksDown(ns, pn, top, b)
    ensures pn[b].child.Some? ==> Numbered(ns, pn[b].child.value)
    ensures pn[b].sibling.Some? ==> Numbered(ns, pn[b].sibling.value)
  {
    LinkFacts(g, ns, pn, b);
  }

  /** The next block of a walk without duplicates has not been walked yet. */
  lemma FreshInWalk(walked: seq<Block>, rest: seq<Block>, walk: seq<Block>)
    requires NoDup(walk) && walked + rest == walk && |rest| > 0
    ensures rest[0] !in walked
  {
    assert walk[|walked|] == rest[0];
    assert forall i :: 0 <= i < |walked| ==> walk[i] == walked[i];
  }

  /** Where the numbering stands: `pn0` are the nodes with their links only. */
  ghost predicate VisitState(g: Graph, ns: seq<Node>, pn0: seq<PreorderNode>, top: nat,
                             pn: seq<PreorderNode>, walked: seq<Block>, stack: seq<Block>) {
    && TreeOk(g, ns) && Linked(g, ns, pn0, 0) && NumbersBelowTop(ns, top)
    && SameLinks(pn0, pn) && NumberedSoFar(pn, walked)
    && (forall k :: 0 <= k < |stack| ==> Numbered(ns, stack[k]))
    && walked + Rest(ns, pn0, top, stack) == Walk(ns, pn0, top, g.entry)
  }

  lemma VisitStart(g: Graph, ns: seq<Node>, pn: seq<PreorderNode>, top: nat)
    requires TreeOk(g, ns) && Linked(g, ns, pn, 0) && NumbersBelowTop(ns, top)
    requires NoNumbers(pn)
    ensures VisitState(g, ns, pn, top, pn, [], [g.entry])
  {
    assert Front([g.entry]) == [];
  }

  lemma {:induction false} VisitStep(g: Graph, ns: seq<Node>, pn0: seq<PreorderNode>, top: nat,
                  pn: seq<PreorderNode>, walked: seq<Block>, stack: seq<Block>)
    requires VisitState(g, ns, pn0, top, pn, walked, stack) && |stack| > 0
    ensures var b := Last(stack);
            && b < |pn|
            && var stack' := Push(Push(Front(stack), pn[b].sibling), pn[b].child);
            && VisitState(g, ns, pn0, top, pn[b := pn[b].(preNumber := |walked| + 1, preMax := |walked| + 1)],
                          walked + [b], stack')
            && |Rest(ns, pn0, top, stack')| < |Rest(ns, pn0, top, stack)|
  {
    var b := Last(stack);
    VisitParts(g, ns, pn0, top, pn, walked, stack);
    hide *;
    var rest := Rest(ns, pn0, top, stack);
    RestStep(ns, pn0, top, stack);
    WalkNoDup(g, ns, pn0, top, g.entry);
    FreshInWalk(walked, rest, Walk(ns, pn0, top, g.entry));
    NumberOne(pn, walked, b);
    var stack' := Push(Push(Front(stack), pn[b].sibling), pn[b].child);
    var pn' := pn[b := pn[b].(preNumber := |walked| + 1, preMax := |walked| + 1)];
    VisitKeepsWalk(walked, rest, b);
    assert Rest(ns, pn0, top, stack') == rest[1..];
    PushNumbered(ns, stack, pn[b].sibling, pn[b].child);
    VisitRestate(g, ns, pn0, top, pn, pn', b, walked + [b], stack');
  }

  /** The next block and its links. */
  lemma {:induction false} VisitParts(g: Graph, ns: seq<Node>, pn0: seq<PreorderNode>, top: nat,
                   pn: seq<PreorderNode>, walked: seq<Block>, stack: seq<Block>)
    requires VisitState(g, ns, pn0, top, pn, walked, stack) && |stack| > 0
    ensures TreeOk(g, ns) && Linked(g, ns, pn0, 0) && NumbersBelowTop(ns, top) && Numbered(ns, g.entry)
    ensures SameLinks(pn0, pn) && NumberedSoFar(pn, walked)
    ensures forall k :: 0 <= k < |stack| ==> Numbered(ns, stack[k])
    ensures walked + Rest(ns, pn0, top, stack) == Walk(ns, pn0, top, g.entry)
    ensures var b := Last(stack);
            && b < |pn0| == |pn| && LinksDown(ns, pn0, top, b)
            && pn[b].sibling == pn0[b].sibling && pn[b].child == pn0[b].child
            && (pn[b].child.Some? ==> Numbered(ns, pn[b].child.value))
            && (pn[b].sibling.Some? ==> Numbered(ns, pn[b].sibling.value))
  {
    LinksGoDown(g, ns, pn0, top, Last(stack));
  }

  lemma PushNumbered(ns: seq<Node>, stack: seq<Block>, s: Option<Block>, c: Option<Block>)
    requires |stack| > 0 && forall k :: 0 <= k < |stack| ==> Numbered(ns, stack[k])
    requires s.Some? ==> Numbered(ns, s.value)
    requires c.Some? ==> Numbered(ns, c.value)
    ensures var stack' := Push(Push(Front(stack), s), c); forall k :: 0 <= k < |stack'| ==> Numbered(ns, stack'[k])
  {
  }

  lemma {:induction false} VisitRestate(g: Graph, ns: seq<Node>, pn0: seq<PreorderNode>, top: nat,
                     pn: seq<PreorderNode>, pn': seq<PreorderNode>, b: Block, walked: seq<Block>, stack: seq<Block>)
    requires TreeOk(g, ns) && Linked(g, ns, pn0, 0) && NumbersBelowTop(ns, top)
    requires SameLinks(pn0, pn) && b < |pn| == |pn'|
    requires pn' == pn[b := pn[b].(preNumber := pn'[b].preNumber, preMax := pn'[b].preMax)]
    requires NumberedSoFar(pn', walked)
    requires forall k :: 0 <= k < |stack| ==> Numbered(ns, stack[k])
    requires walked + Rest(ns, pn0, top, stack) == Walk(ns, pn0, top, g.entry)
    ensures VisitState(g, ns, pn0, top, pn', walked, stack)
  {
  }

  lemma VisitKeepsWalk(walked: seq<Block>, rest: seq<Block>, b: Block)
    requires |rest| > 0 && rest[0] == b
    ensures (walked + [b]) + rest[1..] == walked + rest
  {
  }

  lemma {:induction false} VisitEnd(g: Graph, ns: seq<Node>, pn0: seq<PreorderNode>, top: nat,
          pn: seq<PreorderNode>, walked: seq<Block>)
    requires VisitState(g, ns, pn0, top, pn, walked, [])
    ensures |pn| == |ns| && Linked(g, ns, pn, 0) && NumberedSoFar(pn, Walk(ns, pn, top, g.entry))
  {
    LinkedSameLinks(g, ns, pn0, pn);
    WalkSameLinks(ns, pn0, pn, top, g.entry);
    assert walked + [] == walked;
  }

  ghost predicate SameButMax(ns: seq<Node>, pn: seq<PreorderNode>, pn': seq<PreorderNode>) {
    && SameLinks(pn, pn') && |pn| == |ns|
    && (forall b: Block :: b < |pn| ==> pn'[b].preNumber == pn[b].preNumber)
    && (forall b: Block :: b < |pn| && !Numbered(ns, b) ==> pn'[b].preMax == pn[b].preMax)
  }

  ghost predicate MaxState(ns: seq<Node>, post: seq<Block>, k: nat, pn0: seq<PreorderNode>, pn: seq<PreorderNode>) {
    k <= |post| && SameButMax(ns, pn0, pn) && MaxInv(ns, pn, (|post| + 2 - k) * STRIDE)
  }

  lemma {:induction false} MaxBegin(dfg: Dfg, ns: seq<Node>, post: seq<Block>, pn: seq<PreorderNode>)
    requires IsDomTree(dfg, ns, post) && |pn| == |ns|
    requires NumberedSoFar(pn, Walk(ns, pn, (|post| + 2) * STRIDE, dfg.entry))
    ensures MaxState(ns, post, 0, pn, pn)
  {
    TreeBounds(dfg, ns, post);
    MaxStart(GraphOf(dfg), ns, pn, (|post| + 2) * STRIDE);
  }

  lemma MaxNext(dfg: Dfg, ns: seq<Node>, post: seq<Block>, k: nat, pn0: seq<PreorderNode>, pn: seq<PreorderNode>)
    requires IsDomTree(dfg, ns, post) && k < |post| && MaxState(ns, post, k, pn0, pn)
    ensures var b := post[k];
            && b < |ns| == |pn|
            && match ns[b].idom
               case Some(i) =>
                 i.block < |ns| && MaxState(ns, post, k + 1, pn0, pn[i.block := pn[i.block].(
                   preMax := if pn[b].preMax > pn[i.block].preMax then pn[b].preMax else pn[i.block].preMax)])
               case None => MaxState(ns, post, k + 1, pn0, pn)
  {
    hide IsDomTree, MaxInv, Attained, MaxPassed, Anc;
    PlaceFacts(dfg, ns, post, k);
    var b := post[k];
    if ns[b].idom.Some? {
      MaxStep(ns, pn, (|post| + 2 - k) * STRIDE, b);
    } else {
      EntryHasNoParent(ns, b);
      MaxWiden(ns, pn, (|post| + 2 - k) * STRIDE, ns[b].rpo);
    }
  }

  lemma {:induction false} PreorderDone(dfg: Dfg, ns: seq<Node>, post: seq<Block>,
          pn: seq<PreorderNode>, pn': seq<PreorderNode>)
    requires IsDomTree(dfg, ns, post) && Linked(GraphOf(dfg), ns, pn, 0)
    requires NumberedSoFar(pn, Walk(ns, pn, (|post| + 2) * STRIDE, dfg.entry))
    requires MaxState(ns, post, |post|, pn, pn')
    ensures IsPreorder(dfg, ns, post, pn')
  {
    var g, top := GraphOf(dfg), (|post| + 2) * STRIDE;
    TreeBounds(dfg, ns, post);
    MaxWiden(ns, pn', 2 * STRIDE, 0);
    LinkedSameLinks(g, ns, pn, pn');
    WalkSameLinks(ns, pn, pn', top, dfg.entry);
    forall b: Block | b < |pn'| && !Numbered(ns, b) ensures pn'[b].preNumber == 0 && pn'[b].preMax == 0 {
      WalkCovers(g, ns, pn, top, b);
    }
  }
}
