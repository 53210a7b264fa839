/** The dominator tree under construction: parent links of reverse post-order numbered blocks, the
    facts one recomputation of an immediate dominator keeps, and what they mean for dominance. */
module DomTreeTheory {
  import opened IR
  import opened Graphs

  /** `rpo` is 0 for an unreachable block, 1 (`SEEN`) before it is numbered, and larger afterwards. */
  datatype Node = Node(rpo: nat, idom: Option<Inst>)

  predicate Numbered(ns: seq<Node>, b: nat) {
    b < |ns| && ns[b].rpo > 1
  }

  predicate HasParent(ns: seq<Node>, b: nat) {
    b < |ns| && ns[b].idom.Some? && Numbered(ns, Par(ns, b)) && ns[Par(ns, b)].rpo < ns[b].rpo
  }

  function Par(ns: seq<Node>, b: nat): nat
    requires b < |ns| && ns[b].idom.Some?
  {
    ns[b].idom.value.block
  }

  /** `a` is `b` or a tree ancestor of `b`. */
  ghost predicate Anc(ns: seq<Node>, a: nat, b: nat)
    decreases if b < |ns| then ns[b].rpo else 0
  {
    a == b || (HasParent(ns, b) && Anc(ns, a, Par(ns, b)))
  }

  ghost predicate TreeOk(g: Graph, ns: seq<Node>) {
    && |ns| == |g.succs|
    && Numbered(ns, g.entry) && ns[g.entry].idom.None?
    && (forall b: nat {:trigger HasParent(ns, b)} :: Numbered(ns, b) && b != g.entry ==> HasParent(ns, b))
    && (forall b: nat :: Numbered(ns, b) && b != g.entry ==> ns[g.entry].rpo < ns[b].rpo)
    && (forall b: nat, c: nat :: Numbered(ns, b) && Numbered(ns, c) && ns[b].rpo == ns[c].rpo ==> b == c)
  }

  /** Every numbered block but the entry has a predecessor with a smaller number. */
  ghost predicate PredOrdered(g: Graph, ns: seq<Node>) {
    forall b: nat {:trigger HasForwardPred(g, ns, b)} :: Numbered(ns, b) && b != g.entry ==> HasForwardPred(g, ns, b)
  }

  ghost predicate HasForwardPred(g: Graph, ns: seq<Node>, b: nat) {
    exists f :: ForwardEdge(g, ns, f, b)
  }

  ghost predicate ForwardEdge(g: Graph, ns: seq<Node>, f: nat, b: nat) {
    Numbered(ns, f) && Numbered(ns, b) && Edge(g, f, b) && ns[f].rpo < ns[b].rpo
  }

  /** Every strict dominator of a numbered block dominates its tree parent. */
  ghost predicate DomInv(g: Graph, ns: seq<Node>) {
    forall a: nat, b: nat ::
      Numbered(ns, b) && b != g.entry && HasParent(ns, b) && StrictDom(g, a, b) ==> Dom(g, a, Par(ns, b))
  }

  /** `c` is an ancestor of all numbered predecessors of `b`. */
  ghost predicate CommonAnc(g: Graph, ns: seq<Node>, c: nat, b: nat) {
    forall f: nat {:trigger Edge(g, f, b)} :: Numbered(ns, f) && Edge(g, f, b) ==> Anc(ns, c, f)
  }

  /** `d` is the nearest common ancestor of the numbered predecessors of `b`. */
  ghost predicate NcaPreds(g: Graph, ns: seq<Node>, b: nat, d: nat) {
    CommonAnc(g, ns, d, b) && forall c: nat :: CommonAnc(g, ns, c, b) ==> Anc(ns, c, d)
  }

  // Ancestors

  lemma {:induction false} AncNum(g: Graph, ns: seq<Node>, a: nat, b: nat)
    requires TreeOk(g, ns) && Numbered(ns, b) && Anc(ns, a, b)
    ensures Numbered(ns, a) && ns[a].rpo <= ns[b].rpo
    ensures a != b ==> ns[a].rpo < ns[b].rpo
    decreases ns[b].rpo
  {
    if a != b {
      AncNum(g, ns, a, Par(ns, b));
    }
  }

  lemma {:induction false} AncTrans(ns: seq<Node>, a: nat, b: nat, c: nat)
    requires Anc(ns, a, b) && Anc(ns, b, c)
    ensures Anc(ns, a, c)
    decreases if c < |ns| then ns[c].rpo else 0
  {
    if b != c {
      AncTrans(ns, a, b, Par(ns, c));
    }
  }

  lemma {:induction false} AncChain(g: Graph, ns: seq<Node>, a: nat, b: nat, c: nat)
    requires TreeOk(g, ns) && Numbered(ns, c) && Anc(ns, a, c) && Anc(ns, b, c)
    requires a < |ns| && b < |ns| && ns[a].rpo <= ns[b].rpo
    ensures Anc(ns, a, b)
    decreases ns[c].rpo
  {
    AncNum(g, ns, a, c);
    AncNum(g, ns, b, c);
    if b != c {
      AncChain(g, ns, a, b, Par(ns, c));
    }
  }

  lemma {:induction false} EntryAnc(g: Graph, ns: seq<Node>, b: nat)
    requires TreeOk(g, ns) && Numbered(ns, b)
    ensures Anc(ns, g.entry, b)
    decreases ns[b].rpo
  {
    if b != g.entry {
      assert HasParent(ns, b);
      EntryAnc(g, ns, Par(ns, b));
    }
  }

  /** Blocks numbered below `k` keep their ancestors when their nodes do. */
  lemma {:induction false} AncFrame(g: Graph, ns: seq<Node>, ns': seq<Node>, k: nat, a: nat, b: nat)
    requires TreeOk(g, ns) && |ns'| == |ns|
    requires forall x: nat :: Numbered(ns, x) && ns[x].rpo < k ==> ns'[x] == ns[x]
    requires Numbered(ns, b) && ns[b].rpo < k
    ensures Anc(ns', a, b) == Anc(ns, a, b)
    decreases ns[b].rpo
  {
    if b != g.entry {
      assert HasParent(ns, b);
      AncFrame(g, ns, ns', k, a, Par(ns, b));
    }
  }

  // Dominance and numbers

  /** A dominator never has a larger number. */
  lemma {:induction false} DomNum(g: Graph, ns: seq<Node>, a: nat, b: nat)
    requires TreeOk(g, ns) && PredOrdered(g, ns)
    requires Numbered(ns, b) && Dom(g, a, b)
    ensures Numbered(ns, a) && ns[a].rpo <= ns[b].rpo
    decreases ns[b].rpo
  {
    if b == g.entry {
      EntryOnlyDom(g, a);
    } else if a != b {
      assert HasForwardPred(g, ns, b);
      var f :| ForwardEdge(g, ns, f, b);
      DomPred(g, a, f, b);
      DomNum(g, ns, a, f);
    }
  }

  /** Walking up from `f` does not pass a dominator of `f`. */
  lemma {:induction false} DomUp(g: Graph, ns: seq<Node>, c: nat, d: nat, f: nat)
    requires TreeOk(g, ns) && PredOrdered(g, ns) && DomInv(g, ns)
    requires Numbered(ns, f) && Anc(ns, d, f) && Dom(g, c, f)
    requires c < |ns| && d < |ns| && ns[c].rpo <= ns[d].rpo
    ensures Dom(g, c, d)
    decreases ns[f].rpo
  {
    if d != f {
      AncNum(g, ns, d, f);
      DomUp(g, ns, c, d, Par(ns, f));
    }
  }

  lemma {:induction false} DomIsAnc(g: Graph, ns: seq<Node>, a: nat, b: nat)
    requires TreeOk(g, ns) && DomInv(g, ns)
    requires Numbered(ns, b) && Dom(g, a, b)
    ensures Anc(ns, a, b)
    decreases ns[b].rpo
  {
    if b == g.entry {
      EntryOnlyDom(g, a);
    } else if a != b {
      assert HasParent(ns, b);
      DomIsAnc(g, ns, a, Par(ns, b));
    }
  }

  /** A nearest common ancestor of the predecessors is dominated by every strict dominator. */
  lemma NcaDominated(g: Graph, ns: seq<Node>, b: nat, d: nat, a: nat)
    requires TreeOk(g, ns) && PredOrdered(g, ns) && DomInv(g, ns)
    requires NcaPreds(g, ns, b, d)
    requires exists f :: Numbered(ns, f) && Edge(g, f, b)
    requires StrictDom(g, a, b)
    ensures Dom(g, a, d)
  {
    forall f: nat | Numbered(ns, f) && Edge(g, f, b) ensures Anc(ns, a, f) {
      DomPred(g, a, f, b);
      DomIsAnc(g, ns, a, f);
    }
    assert CommonAnc(g, ns, a, b);
    var f :| Numbered(ns, f) && Edge(g, f, b);
    AncNum(g, ns, d, f);
    AncNum(g, ns, a, d);
    DomPred(g, a, f, b);
    DomUp(g, ns, a, d, f);
  }

  // What the passes keep

  /** No common ancestor of the predecessors of `h` lies below the parent of `h`. */
  ghost predicate ParBound(g: Graph, ns: seq<Node>) {
    forall h: nat, c: nat :: Numbered(ns, h) && h != g.entry && HasParent(ns, h) && c < |ns| && CommonAnc(g, ns, c, h)
                   ==> ns[c].rpo <= ns[Par(ns, h)].rpo
  }

  /** The parent of `h` is an ancestor of each forward predecessor of `h`, for `h` numbered below `k`. */
  ghost predicate ForwardInv(g: Graph, ns: seq<Node>, k: nat) {
    forall f: nat, h: nat :: ForwardEdge(g, ns, f, h) && h != g.entry && HasParent(ns, h) && ns[h].rpo < k
                   ==> Anc(ns, Par(ns, h), f)
  }

  /** An ancestor of `y` since the start of the pass sits above `y` the way it did. */
  ghost predicate ChainInv(ns0: seq<Node>, ns: seq<Node>, k: nat) {
    forall y: nat, z: nat, c: nat ::
      Numbered(ns, y) && ns[y].rpo < k && c < |ns| && z < |ns| && ns[c].rpo <= ns[z].rpo
      && Anc(ns0, z, y) && Anc(ns, c, y)
      ==> Anc(ns, c, z)
  }

  /** `ns` is `ns0` with parents changed only below number `k`. */
  ghost predicate SameFrom(ns0: seq<Node>, ns: seq<Node>, k: nat) {
    && |ns| == |ns0|
    && (forall b :: 0 <= b < |ns| ==> ns[b].rpo == ns0[b].rpo)
    && (forall b :: 0 <= b < |ns| && ns[b].rpo >= k ==> ns[b] == ns0[b])
  }

  ghost predicate TreeInv(g: Graph, ns: seq<Node>) {
    TreeOk(g, ns) && PredOrdered(g, ns) && DomInv(g, ns) && ParBound(g, ns)
  }

  // First pass: numbering one more block

  lemma NumberBlock(g: Graph, ns: seq<Node>, b: nat, n: nat, i: Inst)
    requires TreeInv(g, ns) && ForwardInv(g, ns, n)
    requires b < |ns| && !Numbered(ns, b) && n > 1
    requires forall x :: 0 <= x < |ns| ==> ns[x].rpo < n
    requires exists f :: Numbered(ns, f) && Edge(g, f, b)
    requires NcaPreds(g, ns, b, i.block)
    ensures var ns' := ns[b := Node(n, Some(i))]; TreeInv(g, ns') && ForwardInv(g, ns', n + 1)
  {
    var ns' := ns[b := Node(n, Some(i))];
    var f :| Numbered(ns, f) && Edge(g, f, b);
    AncNum(g, ns, i.block, f);
    NumberKeepsTree(g, ns, b, n, i, f);
    forall a: nat, x: nat | Numbered(ns, x) ensures Anc(ns', a, x) == Anc(ns, a, x) {
      AncFrame(g, ns, ns', n, a, x);
    }
    NumberKeepsDom(g, ns, b, n, i);
    NumberKeepsParBound(g, ns, b, n, i);
    NumberKeepsForward(g, ns, b, n, i);
  }

  lemma NumberKeepsTree(g: Graph, ns: seq<Node>, b: nat, n: nat, i: Inst, f0: nat)
    requires TreeOk(g, ns) && PredOrdered(g, ns)
    requires b < |ns| && !Numbered(ns, b) && n > 1 && Numbered(ns, i.block)
    requires forall x :: 0 <= x < |ns| ==> ns[x].rpo < n
    requires Numbered(ns, f0) && Edge(g, f0, b)
    ensures TreeOk(g, ns[b := Node(n, Some(i))]) && PredOrdered(g, ns[b := Node(n, Some(i))])
  {
    NumberKeepsParents(g, ns, b, n, i);
    hide TreeOk;
    var ns' := ns[b := Node(n, Some(i))];
    forall x: nat | Numbered(ns', x) && x != g.entry ensures HasForwardPred(g, ns', x) {
      if x == b {
        assert ForwardEdge(g, ns', f0, b);
      } else {
        assert HasForwardPred(g, ns, x);
        var f :| ForwardEdge(g, ns, f, x);
        assert ForwardEdge(g, ns', f, x);
      }
    }
  }

  lemma NumberKeepsParents(g: Graph, ns: seq<Node>, b: nat, n: nat, i: Inst)
    requires TreeOk(g, ns) && b < |ns| && !Numbered(ns, b) && n > 1 && Numbered(ns, i.block)
    requires forall x :: 0 <= x < |ns| ==> ns[x].rpo < n
    ensures TreeOk(g, ns[b := Node(n, Some(i))])
  {
    var ns' := ns[b := Node(n, Some(i))];
    forall x: nat | Numbered(ns', x) && x != g.entry ensures HasParent(ns', x) {
      assert x != b ==> HasParent(ns, x);
    }
  }

  lemma NumberKeepsDom(g: Graph, ns: seq<Node>, b: nat, n: nat, i: Inst)
    requires TreeOk(g, ns) && PredOrdered(g, ns) && DomInv(g, ns)
    requires b < |ns| && !Numbered(ns, b) && NcaPreds(g, ns, b, i.block)
    requires exists f :: Numbered(ns, f) && Edge(g, f, b)
    ensures DomInv(g, ns[b := Node(n, Some(i))])
  {
    var ns' := ns[b := Node(n, Some(i))];
    forall a: nat, x: nat | Numbered(ns', x) && x != g.entry && HasParent(ns', x) && StrictDom(g, a, x)
      ensures Dom(g, a, Par(ns', x))
    {
      if x == b {
        NcaDominated(g, ns, b, i.block, a);
      } else {
        assert HasParent(ns, x);
      }
    }
  }

  lemma NumberKeepsParBound(g: Graph, ns: seq<Node>, b: nat, n: nat, i: Inst)
    requires TreeOk(g, ns) && PredOrdered(g, ns) && ParBound(g, ns)
    requires b < |ns| && !Numbered(ns, b) && n > 1 && Numbered(ns, i.block)
    requires forall x :: 0 <= x < |ns| ==> ns[x].rpo < n
    requires NcaPreds(g, ns, b, i.block)
    requires forall a: nat, x: nat :: Numbered(ns, x) ==> Anc(ns[b := Node(n, Some(i))], a, x) == Anc(ns, a, x)
    ensures ParBound(g, ns[b := Node(n, Some(i))])
  {
    var ns' := ns[b := Node(n, Some(i))];
    forall h: nat, c: nat |
      Numbered(ns', h) && h != g.entry && HasParent(ns', h) && c < |ns'| && CommonAnc(g, ns', c, h)
      ensures ns'[c].rpo <= ns'[Par(ns', h)].rpo
    {
      forall f: nat | Numbered(ns, f) && Edge(g, f, h) ensures Anc(ns, c, f) {
        assert Numbered(ns', f);
      }
      assert CommonAnc(g, ns, c, h);
      if h == b {
        AncNum(g, ns, c, i.block);
      } else {
        assert HasForwardPred(g, ns, h);
        var f :| ForwardEdge(g, ns, f, h);
        AncNum(g, ns, c, f);
      }
    }
  }

  lemma {:induction false} NumberKeepsForward(g: Graph, ns: seq<Node>, b: nat, n: nat, i: Inst)
    requires TreeOk(g, ns) && ForwardInv(g, ns, n)
    requires b < |ns| && !Numbered(ns, b) && n > 1 && Numbered(ns, i.block)
    requires forall x :: 0 <= x < |ns| ==> ns[x].rpo < n
    requires NcaPreds(g, ns, b, i.block)
    requires forall a: nat, x: nat :: Numbered(ns, x) ==> Anc(ns[b := Node(n, Some(i))], a, x) == Anc(ns, a, x)
    ensures ForwardInv(g, ns[b := Node(n, Some(i))], n + 1)
  {
    var ns' := ns[b := Node(n, Some(i))];
    forall f: nat, h: nat | ForwardEdge(g, ns', f, h) && h != g.entry && HasParent(ns', h)
      ensures Anc(ns', Par(ns', h), f)
    {
      assert f != b;
      if h != b {
        assert ForwardEdge(g, ns, f, h) && HasParent(ns, h);
      }
    }
  }

  // Later passes: recomputing the parent of one block

  /** The recomputed parent is an ancestor of the present one. */
  lemma {:induction false} NewParentAbove(g: Graph, ns0: seq<Node>, ns: seq<Node>, b: nat, d: nat)
    requires Numbered(ns, b) && b != g.entry
    requires TreeInv(g, ns0) && TreeInv(g, ns) && SameFrom(ns0, ns, ns[b].rpo)
    requires ForwardInv(g, ns0, ns[b].rpo + 1) && ChainInv(ns0, ns, ns[b].rpo)
    requires NcaPreds(g, ns, b, d)
    ensures Numbered(ns, d) && Anc(ns, d, Par(ns, b))
  {
    assert HasParent(ns, b) && HasForwardPred(g, ns, b);
    var f :| ForwardEdge(g, ns, f, b);
    AncNum(g, ns, d, f);
    ParBoundAt(g, ns, b, d);
    ForwardAt(g, ns0, f, b, ns[b].rpo + 1);
    ChainAt(ns0, ns, ns[b].rpo, f, Par(ns, b), d);
  }

  lemma ParBoundAt(g: Graph, ns: seq<Node>, h: nat, c: nat)
    requires ParBound(g, ns) && Numbered(ns, h) && h != g.entry && HasParent(ns, h) && c < |ns|
    requires CommonAnc(g, ns, c, h)
    ensures ns[c].rpo <= ns[Par(ns, h)].rpo
  {
  }

  lemma {:induction false} ForwardAt(g: Graph, ns: seq<Node>, f: nat, h: nat, k: nat)
    requires ForwardInv(g, ns, k) && ForwardEdge(g, ns, f, h) && h != g.entry && HasParent(ns, h) && ns[h].rpo < k
    ensures Anc(ns, Par(ns, h), f)
  {
  }

  lemma {:induction false} ChainAt(ns0: seq<Node>, ns: seq<Node>, k: nat, y: nat, z: nat, c: nat)
    requires ChainInv(ns0, ns, k) && Numbered(ns, y) && ns[y].rpo < k
    requires c < |ns| && z < |ns| && ns[c].rpo <= ns[z].rpo && Anc(ns0, z, y) && Anc(ns, c, y)
    ensures Anc(ns, c, z)
  {
  }

  /** Moving a parent link up the tree only removes ancestors. */
  lemma {:induction false} MoveUpShrinks(g: Graph, ns: seq<Node>, b: nat, i: Inst, a: nat, x: nat)
    requires TreeOk(g, ns) && Numbered(ns, b) && HasParent(ns, b)
    requires Numbered(ns, i.block) && Anc(ns, i.block, Par(ns, b))
    requires Numbered(ns, x) && Anc(ns[b := Node(ns[b].rpo, Some(i))], a, x)
    ensures Anc(ns, a, x)
    decreases ns[x].rpo
  {
    if a != x {
      if x == b {
        AncNum(g, ns, i.block, Par(ns, b));
        MoveUpShrinks(g, ns, b, i, a, i.block);
        AncTrans(ns, a, i.block, Par(ns, b));
      } else {
        assert HasParent(ns, x);
        MoveUpShrinks(g, ns, b, i, a, Par(ns, x));
      }
    }
  }

  /** Every ancestor a block has now, it had before. */
  ghost predicate AncestorsShrink(ns0: seq<Node>, ns: seq<Node>) {
    && |ns| == |ns0|
    && forall a: nat, x: nat {:trigger Anc(ns, a, x)} :: Numbered(ns, x) && Anc(ns, a, x) ==> Anc(ns0, a, x)
  }

  ghost predicate Lost(ns0: seq<Node>, ns: seq<Node>, a: nat, x: nat) {
    Numbered(ns, x) && Anc(ns0, a, x) && !Anc(ns, a, x)
  }

  /** Some block has lost an ancestor. */
  ghost predicate AncestorLost(ns0: seq<Node>, ns: seq<Node>) {
    exists a: nat, x: nat :: Lost(ns0, ns, a, x)
  }

  /** A parent link that moves takes an ancestor away, and adds none. */
  lemma MoveLosesAncestor(g: Graph, ns0: seq<Node>, ns: seq<Node>, b: nat, i: Inst)
    requires TreeOk(g, ns) && AncestorsShrink(ns0, ns) && Numbered(ns, b) && HasParent(ns, b)
    requires Numbered(ns, i.block) && Anc(ns, i.block, Par(ns, b)) && i.block != Par(ns, b)
    ensures var ns' := ns[b := Node(ns[b].rpo, Some(i))]; AncestorsShrink(ns0, ns') && AncestorLost(ns0, ns')
  {
    var ns', p := ns[b := Node(ns[b].rpo, Some(i))], Par(ns, b);
    AncNum(g, ns, i.block, p);
    forall a: nat, x: nat | Numbered(ns', x) && Anc(ns', a, x) ensures Anc(ns0, a, x) {
      assert Numbered(ns, x);
      MoveUpShrinks(g, ns, b, i, a, x);
    }
    if Anc(ns', p, i.block) {
      MoveUpShrinks(g, ns, b, i, p, i.block);
      AncNum(g, ns, p, i.block);
    }
    assert Anc(ns, p, p) && Anc(ns, p, b);
    assert Lost(ns0, ns', p, b);
  }

  lemma Recompute(g: Graph, ns0: seq<Node>, ns: seq<Node>, b: nat, i: Inst)
    requires Numbered(ns, b) && b != g.entry
    requires TreeInv(g, ns0) && TreeInv(g, ns) && SameFrom(ns0, ns, ns[b].rpo)
    requires ForwardInv(g, ns0, ns[b].rpo + 1) && ForwardInv(g, ns, ns[b].rpo) && ChainInv(ns0, ns, ns[b].rpo)
    requires NcaPreds(g, ns, b, i.block)
    ensures var k := ns[b].rpo; var ns' := ns[b := Node(k, Some(i))];
            && TreeInv(g, ns') && SameFrom(ns0, ns', k + 1)
            && ForwardInv(g, ns', k + 1) && ChainInv(ns0, ns', k + 1)
    ensures HasParent(ns, b) && Numbered(ns, i.block) && Anc(ns, i.block, Par(ns, b))
    ensures ns[i.block].rpo <= ns[Par(ns, b)].rpo
  {
    assert HasParent(ns, b);
    NewParentAbove(g, ns0, ns, b, i.block);
    AncNum(g, ns, i.block, Par(ns, b));
    RecomputeKeepsTree(g, ns, b, i);
    RecomputeKeepsDom(g, ns, b, i);
    RecomputeKeepsParBound(g, ns, b, i);
    RecomputeKeepsForward(g, ns, b, i);
    RecomputeKeepsChain(g, ns0, ns, b, i);
  }

  lemma RecomputeKeepsTree(g: Graph, ns: seq<Node>, b: nat, i: Inst)
    requires TreeOk(g, ns) && PredOrdered(g, ns) && Numbered(ns, b) && b != g.entry
    requires Numbered(ns, i.block) && ns[i.block].rpo < ns[b].rpo
    ensures TreeOk(g, ns[b := Node(ns[b].rpo, Some(i))]) && PredOrdered(g, ns[b := Node(ns[b].rpo, Some(i))])
  {
    hide HasForwardPred;
    var ns' := ns[b := Node(ns[b].rpo, Some(i))];
    forall x: nat | Numbered(ns', x) && x != g.entry ensures HasParent(ns', x) {
      assert HasParent(ns, x);
    }
    forall x: nat | Numbered(ns', x) && x != g.entry ensures HasForwardPred(g, ns', x) {
      assert HasForwardPred(g, ns, x);
      SameForwardPred(g, ns, ns', x);
    }
  }

  lemma SameForwardPred(g: Graph, ns: seq<Node>, ns': seq<Node>, x: nat)
    requires HasForwardPred(g, ns, x) && |ns'| == |ns|
    requires forall y: nat :: y < |ns| ==> ns'[y].rpo == ns[y].rpo
    ensures HasForwardPred(g, ns', x)
  {
    var f :| ForwardEdge(g, ns, f, x);
    assert ForwardEdge(g, ns', f, x);
  }

  lemma RecomputeKeepsDom(g: Graph, ns: seq<Node>, b: nat, i: Inst)
    requires TreeInv(g, ns) && Numbered(ns, b) && NcaPreds(g, ns, b, i.block)
    requires b != g.entry
    ensures DomInv(g, ns[b := Node(ns[b].rpo, Some(i))])
  {
    var ns' := ns[b := Node(ns[b].rpo, Some(i))];
    assert HasForwardPred(g, ns, b);
    var f :| ForwardEdge(g, ns, f, b);
    forall a: nat, x: nat | Numbered(ns', x) && x != g.entry && HasParent(ns', x) && StrictDom(g, a, x)
      ensures Dom(g, a, Par(ns', x))
    {
      if x == b {
        NcaDominated(g, ns, b, i.block, a);
      } else {
        assert HasParent(ns, x);
      }
    }
  }

  lemma RecomputeKeepsParBound(g: Graph, ns: seq<Node>, b: nat, i: Inst)
    requires TreeOk(g, ns) && ParBound(g, ns) && Numbered(ns, b) && NcaPreds(g, ns, b, i.block)
    requires Numbered(ns, i.block) && HasParent(ns, b) && Anc(ns, i.block, Par(ns, b))
    ensures ParBound(g, ns[b := Node(ns[b].rpo, Some(i))])
  {
    var ns' := ns[b := Node(ns[b].rpo, Some(i))];
    forall h: nat, c: nat |
      Numbered(ns', h) && h != g.entry && HasParent(ns', h) && c < |ns'| && CommonAnc(g, ns', c, h)
      ensures ns'[c].rpo <= ns'[Par(ns', h)].rpo
    {
      forall f: nat | Numbered(ns, f) && Edge(g, f, h) ensures Anc(ns, c, f) {
        assert Numbered(ns', f);
        MoveUpShrinks(g, ns, b, i, c, f);
      }
      assert CommonAnc(g, ns, c, h);
      if h == b {
        AncNum(g, ns, c, i.block);
      } else {
        assert HasParent(ns, h);
      }
    }
  }

  lemma RecomputeKeepsForward(g: Graph, ns: seq<Node>, b: nat, i: Inst)
    requires TreeOk(g, ns) && Numbered(ns, b) && ForwardInv(g, ns, ns[b].rpo)
    requires NcaPreds(g, ns, b, i.block) && Numbered(ns, i.block)
    ensures ForwardInv(g, ns[b := Node(ns[b].rpo, Some(i))], ns[b].rpo + 1)
  {
    var ns' := ns[b := Node(ns[b].rpo, Some(i))];
    forall f: nat, h: nat | ForwardEdge(g, ns', f, h) && h != g.entry && HasParent(ns', h) && ns'[h].rpo < ns[b].rpo + 1
      ensures Anc(ns', Par(ns', h), f)
    {
      assert Numbered(ns, f) && ns[f].rpo < ns[b].rpo;
      if h != b {
        assert Numbered(ns, h) && ns[h].rpo != ns[b].rpo;
        assert ForwardEdge(g, ns, f, h) && HasParent(ns, h);
      }
      AncFrame(g, ns, ns', ns[b].rpo, Par(ns', h), f);
    }
  }

  lemma {:induction false} RecomputeKeepsChain(g: Graph, ns0: seq<Node>, ns: seq<Node>, b: nat, i: Inst)
    requires Numbered(ns, b) && b != g.entry
    requires TreeOk(g, ns0) && TreeOk(g, ns) && SameFrom(ns0, ns, ns[b].rpo) && ChainInv(ns0, ns, ns[b].rpo)
    requires HasParent(ns, b) && Numbered(ns, i.block) && Anc(ns, i.block, Par(ns, b))
    ensures ChainInv(ns0, ns[b := Node(ns[b].rpo, Some(i))], ns[b].rpo + 1)
  {
    var ns' := ns[b := Node(ns[b].rpo, Some(i))];
    forall y: nat, z: nat, c: nat |
      && Numbered(ns', y) && ns'[y].rpo < ns[b].rpo + 1 && c < |ns'| && z < |ns'| && ns'[c].rpo <= ns'[z].rpo
      && Anc(ns0, z, y) && Anc(ns', c, y)
      ensures Anc(ns', c, z)
    {
      ChainStep(g, ns0, ns, b, i, y, z, c);
    }
  }

  lemma ChainStep(g: Graph, ns0: seq<Node>, ns: seq<Node>, b: nat, i: Inst, y: nat, z: nat, c: nat)
    requires Numbered(ns, b) && b != g.entry
    requires TreeOk(g, ns0) && TreeOk(g, ns) && SameFrom(ns0, ns, ns[b].rpo) && ChainInv(ns0, ns, ns[b].rpo)
    requires HasParent(ns, b) && Numbered(ns, i.block) && Anc(ns, i.block, Par(ns, b))
    requires Numbered(ns, y) && ns[y].rpo <= ns[b].rpo && c < |ns| && z < |ns| && ns[c].rpo <= ns[z].rpo
    requires Anc(ns0, z, y) && Anc(ns[b := Node(ns[b].rpo, Some(i))], c, y)
    ensures Anc(ns[b := Node(ns[b].rpo, Some(i))], c, z)
  {
    var k := ns[b].rpo;
    var ns' := ns[b := Node(k, Some(i))];
    var p := Par(ns, b);
    assert Numbered(ns0, y);
    AncNum(g, ns0, z, y);
    AncNum(g, ns, i.block, p);
    if y != b {
      AncFrame(g, ns, ns', k, c, y);
      AncFrame(g, ns, ns', k, c, z);
    } else if z != b {
      AncFrame(g, ns, ns', k, c, i.block);
      AncTrans(ns, c, i.block, p);
      AncFrame(g, ns, ns', k, c, z);
    }
  }

  // The finished tree

  /** Every edge either has the parent of its head above its tail, or closes a natural loop. */
  ghost predicate Settled(g: Graph, ns: seq<Node>) {
    forall f: nat, h: nat {:trigger Edge(g, f, h)} ::
      (Numbered(ns, f) && Numbered(ns, h) && h != g.entry && HasParent(ns, h) && Edge(g, f, h)) ==>
        Anc(ns, Par(ns, h), f) || Dom(g, h, f)
  }

  lemma {:induction false} AncOnPath(g: Graph, ns: seq<Node>, a: nat, b: nat, p: seq<nat>)
    requires TreeOk(g, ns) && Settled(g, ns) && (forall x :: Reachable(g, x) ==> Numbered(ns, x))
    requires PathTo(g, g.entry, p, b) && Anc(ns, a, b)
    ensures a in p
    decreases |p|, 1, 0
  {
    if |p| == 1 {
      assert b == g.entry;
    } else if a == b {
      assert p[|p| - 1] == b;
    } else {
      var f := Last(Front(p));
      assert PathTo(g, g.entry, Front(p), f);
      PathEdge(g, p, |p| - 2);
      assert PathTo(g, g.entry, p, b);
      assert Reachable(g, f) && Reachable(g, b);
      if Anc(ns, Par(ns, b), f) {
        AncTrans(ns, a, Par(ns, b), f);
        AncOnPath(g, ns, a, f, Front(p));
      } else {
        assert Dom(g, b, f);
        assert b in Front(p);
        var i :| 0 <= i < |Front(p)| && Front(p)[i] == b;
        PathPrefix(g, Front(p), i + 1);
        AncOnPath(g, ns, a, b, Front(p)[..i + 1]);
      }
    }
  }

  /** In a settled tree the ancestors of a reachable block are exactly its dominators. */
  lemma {:induction false} AncIffDom(g: Graph, ns: seq<Node>, a: nat, b: nat)
    requires TreeOk(g, ns) && DomInv(g, ns) && Settled(g, ns)
    requires forall x :: Reachable(g, x) ==> Numbered(ns, x)
    requires Reachable(g, b)
    ensures Anc(ns, a, b) <==> Dom(g, a, b)
  {
    if Dom(g, a, b) {
      DomIsAnc(g, ns, a, b);
    }
    if Anc(ns, a, b) {
      forall p | PathTo(g, g.entry, p, b) ensures a in p {
        AncOnPath(g, ns, a, b, p);
      }
    }
  }

  /** Every retreating edge goes to a block that dominates its source. */
  ghost predicate Reducible(g: Graph, ns: seq<Node>) {
    forall f: nat, h: nat {:trigger Edge(g, f, h)} ::
      Numbered(ns, f) && Numbered(ns, h) && Edge(g, f, h) && ns[f].rpo >= ns[h].rpo ==> Dom(g, h, f)
  }

  /** A settled tree is a fixpoint: recomputing a block finds its present parent. */
  lemma SettledIsFixpoint(g: Graph, ns: seq<Node>, b: nat, d: nat)
    requires TreeInv(g, ns) && Settled(g, ns)
    requires forall x :: Reachable(g, x) <==> Numbered(ns, x)
    requires Numbered(ns, b) && b != g.entry && NcaPreds(g, ns, b, d)
    ensures HasParent(ns, b) && d == Par(ns, b)
  {
    assert HasParent(ns, b);
    var p := Par(ns, b);
    assert HasForwardPred(g, ns, b);
    var f0 :| ForwardEdge(g, ns, f0, b);
    AncNum(g, ns, d, f0);
    forall f: nat | Edge(g, f, b) && Reachable(g, f) ensures Dom(g, d, f) {
      AncIffDom(g, ns, d, f);
    }
    DomFromPreds(g, d, b);
    assert Dom(g, d, b);
    AncIffDom(g, ns, d, b);
    assert Anc(ns, d, p);
    AncIffDom(g, ns, p, b);
    NcaDominated(g, ns, b, d, p);
    DomIsAnc(g, ns, p, d);
    AncNum(g, ns, d, p);
    AncNum(g, ns, p, d);
  }
}
