/** The dominator tree of a function, after Cooper, Harvey and Kennedy. */
module Dominance {
  import opened IR
  import opened Graphs
  import opened ControlFlow
  import opened DomTreeTheory
  import opened PostorderTheory

  /** RPO numbers are multiples of this. */
  const STRIDE: nat := 4
  const SEEN: nat := 1

  /** The numbers the first pass gives along the reverse of `post`. */
  ghost predicate OrderedBy(ns: seq<Node>, post: seq<Block>) {
    && (forall j :: 0 <= j < |post| ==> post[j] < |ns| && ns[post[j]].rpo == (|post| + 1 - j) * STRIDE)
    && (forall b: nat :: b < |ns| && b !in post ==> ns[b] == Node(0, None))
  }

  /** The number of a block; node storage answers for a detached block with the default node. */
  function RpoOf(ns: seq<Node>, b: Block): nat {
    if b < |ns| then ns[b].rpo else 0
  }

  /** Every recorded immediate dominator is the instruction that ends its block. */
  ghost predicate IdomsAreTerminators(dfg: Dfg, ns: seq<Node>) {
    forall b :: 0 <= b < |ns| && ns[b].idom.Some? ==> dfg.LastInst(ns[b].idom.value.block) == ns[b].idom
  }

  /** `ns` and `post` are the finished dominator tree of `dfg`. */
  ghost predicate IsDomTree(dfg: Dfg, ns: seq<Node>, post: seq<Block>) {
    && dfg.WellFormed()
    && IsPostorder(GraphOf(dfg), post) && OrderedBy(ns, post)
    && TreeInv(GraphOf(dfg), ns) && Settled(GraphOf(dfg), ns)
    && IdomsAreTerminators(dfg, ns)
  }

  /** `c` is an ancestor of both blocks exactly when it is one of `r`. */
  ghost predicate IsNca(ns: seq<Node>, a: Block, b: Block, r: Block) {
    forall c: nat :: Anc(ns, c, a) && Anc(ns, c, b) <==> Anc(ns, c, r)
  }

  // Program points

  /** Control that follows `p` to `b` has been at `a`. */
  ghost predicate Passes(p: seq<nat>, a: ProgramPoint, b: ProgramPoint)
    requires |p| > 0
  {
    a.PPBlock() in Front(p) || (a.PPBlock() == b.PPBlock() && a.Seq() <= b.Seq())
  }

  /** Every control-flow path from the function entry to `b` goes through `a`. */
  ghost predicate PointDom(dfg: Dfg, a: ProgramPoint, b: ProgramPoint) {
    forall p :: PathTo(GraphOf(dfg), dfg.entry, p, b.PPBlock()) ==> Passes(p, a, b)
  }

  /** What `dominates` decides: path dominance where `b` is reachable, order within the block elsewhere. */
  ghost predicate DominatesSpec(dfg: Dfg, a: ProgramPoint, b: ProgramPoint) {
    if Reachable(GraphOf(dfg), b.PPBlock()) then PointDom(dfg, a, b)
    else a.PPBlock() == b.PPBlock() && a.Seq() <= b.Seq()
  }

  lemma PointDomIffDom(dfg: Dfg, a: ProgramPoint, b: ProgramPoint)
    requires Reachable(GraphOf(dfg), b.PPBlock())
    ensures PointDom(dfg, a, b) <==>
            if a.PPBlock() == b.PPBlock() then a.Seq() <= b.Seq() else Dom(GraphOf(dfg), a.PPBlock(), b.PPBlock())
  {
    hide GraphOf, Edge;
    var g := GraphOf(dfg);
    if a.PPBlock() == b.PPBlock() {
      var p :| PathTo(g, g.entry, p, b.PPBlock());
      var q := FirstVisit(g, g.entry, p, b.PPBlock());
      assert PointDom(dfg, a, b) ==> Passes(q, a, b);
    } else {
      forall p | PathTo(g, g.entry, p, b.PPBlock()) ensures a.PPBlock() in p <==> Passes(p, a, b) {
        PassesElsewhere(p, a, b);
      }
    }
  }

  /** Passing a point of another block is visiting that block. */
  lemma PassesElsewhere(p: seq<nat>, a: ProgramPoint, b: ProgramPoint)
    requires |p| > 0 && Last(p) == b.PPBlock() && a.PPBlock() != b.PPBlock()
    ensures a.PPBlock() in p <==> Passes(p, a, b)
  {
    assert p == Front(p) + [b.PPBlock()];
  }

  // Consequences of a finished tree

  lemma TreeFacts(dfg: Dfg, ns: seq<Node>, post: seq<Block>)
    requires IsDomTree(dfg, ns, post)
    ensures |ns| == dfg.NumBlocks()
    ensures forall b: nat :: Numbered(ns, b) <==> Reachable(GraphOf(dfg), b)
    ensures forall b: nat :: Numbered(ns, b) <==> b in post
    ensures forall b: nat :: b < |ns| && !Numbered(ns, b) ==> ns[b] == Node(0, None)
  {
  }

  /** Tree ancestors of a reachable block are its dominators, by the all-paths definition. */
  lemma {:induction false} TreeIsDominance(dfg: Dfg, ns: seq<Node>, post: seq<Block>, a: Block, b: Block)
    requires IsDomTree(dfg, ns, post) && Reachable(GraphOf(dfg), b)
    ensures Anc(ns, a, b) <==> Dom(GraphOf(dfg), a, b)
  {
    TreeFacts(dfg, ns, post);
    AncIffDom(GraphOf(dfg), ns, a, b);
  }

  /** The recorded `idom` is in the closest strict dominator, and is absent where there is none. */
  lemma IdomIsImmediate(dfg: Dfg, ns: seq<Node>, post: seq<Block>, b: Block)
    requires IsDomTree(dfg, ns, post) && b < |ns|
    ensures ns[b].idom.None? <==> b == dfg.entry || !Reachable(GraphOf(dfg), b)
    ensures ns[b].idom.Some? ==>
              && ImmediateDom(GraphOf(dfg), Par(ns, b), b)
              && dfg.LastInst(Par(ns, b)) == ns[b].idom
  {
    var g := GraphOf(dfg);
    TreeFacts(dfg, ns, post);
    if Numbered(ns, b) && b != g.entry {
      assert HasParent(ns, b);
      assert Anc(ns, Par(ns, b), Par(ns, b));
      TreeIsDominance(dfg, ns, post, Par(ns, b), b);
    }
  }

  // Steps of the two passes

  ghost predicate PassInv(g: Graph, ns0: seq<Node>, ns: seq<Node>, k: nat) {
    && TreeInv(g, ns0) && TreeInv(g, ns)
    && SameFrom(ns0, ns, k) && ForwardInv(g, ns, k) && ChainInv(ns0, ns, k)
  }

  lemma PassStart(g: Graph, ns: seq<Node>, k: nat, top: nat)
    requires TreeInv(g, ns) && ForwardInv(g, ns, top) && k <= top
    ensures PassInv(g, ns, ns, k)
  {
    forall y: nat, z: nat, c: nat |
      && Numbered(ns, y) && ns[y].rpo < k && c < |ns| && z < |ns| && ns[c].rpo <= ns[z].rpo
      && Anc(ns, z, y) && Anc(ns, c, y)
      ensures Anc(ns, c, z)
    {
      AncChain(g, ns, c, z, y);
    }
  }

  /** Numbers are multiples of the stride, so nothing lies between `k` and `k + STRIDE`. */
  lemma NoNumberBetween(ns: seq<Node>, post: seq<Block>, t: nat, b: nat)
    requires OrderedBy(ns, post) && b < |ns| && ns[b].rpo < (t + 1) * STRIDE
    ensures ns[b].rpo <= t * STRIDE
  {
    if b in post {
      var j :| 0 <= j < |post| && post[j] == b;
    }
  }

  lemma {:induction false} PassStep(g: Graph, post: seq<Block>, ns0: seq<Node>, ns: seq<Node>,
          t: nat, b: Block, i: Inst)
    requires PassInv(g, ns0, ns, t * STRIDE) && OrderedBy(ns, post)
    requires b < |ns| && ns[b].rpo == t * STRIDE && t > 0 && b != g.entry
    requires ForwardInv(g, ns0, t * STRIDE + 1)
    requires NcaPreds(g, ns, b, i.block)
    ensures PassInv(g, ns0, ns[b := Node(ns[b].rpo, Some(i))], (t + 1) * STRIDE)
    ensures HasParent(ns, b) && Numbered(ns, i.block) && Anc(ns, i.block, Par(ns, b))
    ensures ns[i.block].rpo <= ns[Par(ns, b)].rpo
  {
    Recompute(g, ns0, ns, b, i);
    forall x: nat | x < |ns| && ns[x].rpo < (t + 1) * STRIDE ensures ns[x].rpo < t * STRIDE + 1 {
      NoNumberBetween(ns, post, t, x);
    }
    WidenBounds(g, ns0, ns[b := Node(ns[b].rpo, Some(i))], t * STRIDE + 1, (t + 1) * STRIDE);
  }

  lemma WidenBounds(g: Graph, ns0: seq<Node>, ns: seq<Node>, k: nat, k': nat)
    requires SameFrom(ns0, ns, k) && ForwardInv(g, ns, k) && ChainInv(ns0, ns, k) && k <= k'
    requires forall x: nat :: x < |ns| && ns[x].rpo < k' ==> ns[x].rpo < k
    ensures SameFrom(ns0, ns, k') && ForwardInv(g, ns, k') && ChainInv(ns0, ns, k')
  {
  }

  // The measure of the convergence loop

  ghost function ParWeight(ns: seq<Node>, b: Block): nat {
    if HasParent(ns, b) then ns[Par(ns, b)].rpo else 0
  }

  ghost function ParSum(ns: seq<Node>, post: seq<Block>): nat {
    if |post| == 0 then 0 else ParWeight(ns, post[0]) + ParSum(ns, post[1..])
  }

  lemma {:induction false} ParSumLess(ns: seq<Node>, ns': seq<Node>, post: seq<Block>, b: Block)
    requires forall x :: x in post ==> ParWeight(ns', x) <= ParWeight(ns, x)
    ensures ParSum(ns', post) <= ParSum(ns, post)
    ensures b in post && ParWeight(ns', b) < ParWeight(ns, b) ==> ParSum(ns', post) < ParSum(ns, post)
    decreases |post|
  {
    if |post| > 0 {
      assert post == [post[0]] + post[1..];
      ParSumLess(ns, ns', post[1..], b);
    }
  }

  class DominatorTree {
    var nodes: seq<Node>
    /** Post-order of the reachable blocks. */
    var postorder: seq<Block>
    var stack: seq<Frame>
    var valid: bool

    constructor ()
      ensures !valid && nodes == [] && postorder == [] && stack == []
    {
      nodes, postorder, stack, valid := [], [], [], false;
    }

    ghost predicate Describes(dfg: Dfg)
      reads this
    {
      valid && IsDomTree(dfg, nodes, postorder)
    }

    method Clear()
      modifies this
      ensures nodes == [] && postorder == [] && stack == old(stack) && !valid
    {
      nodes, postorder, valid := [], [], false;
    }

    /** Reset and compute; `passes` counts the rounds of the convergence loop. */
    method Compute(dfg: Dfg, cfg: ControlFlowGraph) returns (ghost passes: nat)
      requires dfg.WellFormed() && Exact(dfg, cfg.data)
      requires stack == []
      modifies this
      ensures Describes(dfg) && stack == []
      ensures Reducible(GraphOf(dfg), nodes) ==> passes == 1
    {
      hide IsPostorder, Exact, GraphOf, Reducible, IsDomTree;
      ComputePostorder(dfg);
      passes := ComputeDomtree(dfg, cfg);
      valid := true;
    }

    method ComputePostorder(dfg: Dfg)
      requires dfg.WellFormed()
      requires stack == []
      modifies this
      ensures IsPostorder(GraphOf(dfg), postorder) && stack == []
      ensures |nodes| == dfg.NumBlocks()
      ensures forall b: nat :: b < |nodes| ==> nodes[b] == Node(if b in postorder then SEEN else 0, None)
    {
      ghost var g := GraphOf(dfg);
      GraphWellFormed(dfg);
      Clear();
      nodes := seq(dfg.NumBlocks(), _ => Node(0, None));
      stack := [(First, dfg.entry)];
      ghost var src: seq<nat> := [0];
      DfsStart(g, nodes);
      while |stack| > 0
        invariant DfsInv(g, nodes, stack, src, postorder)
        invariant forall b: nat :: b < |nodes| ==> nodes[b] == Node(0, None) || nodes[b] == Node(SEEN, None)
        decreases Unseen(nodes), |stack|
      {
        src := VisitTop(dfg, src);
      }
      assert src == [];
      DfsDone(g, nodes, postorder);
    }

    /** Pops one frame and does what it asks for. */
    method VisitTop(dfg: Dfg, ghost src: seq<nat>) returns (ghost src': seq<nat>)
      requires dfg.WellFormed() && |stack| > 0 && DfsInv(GraphOf(dfg), nodes, stack, src, postorder)
      requires forall b: nat :: b < |nodes| ==> nodes[b] == Node(0, None) || nodes[b] == Node(SEEN, None)
      modifies this`nodes, this`stack, this`postorder
      ensures DfsInv(GraphOf(dfg), nodes, stack, src', postorder)
      ensures forall b: nat :: b < |nodes| ==> nodes[b] == Node(0, None) || nodes[b] == Node(SEEN, None)
      ensures Unseen(nodes) < Unseen(old(nodes)) || (nodes == old(nodes) && |stack| < |old(stack)|)
    {
      hide DfsInv;
      DfsShape(GraphOf(dfg), nodes, stack, src, postorder);
      var top := |stack| - 1;
      var (visit, block) := stack[top];
      if visit == Final {
        DfsFinish(GraphOf(dfg), nodes, stack, src, postorder);
        stack, src' := stack[..top], Front(src);
        postorder := postorder + [block];
      } else if nodes[block].rpo == 0 {
        ghost var was := nodes;
        stack := stack[..top];
        nodes := nodes[block := Node(SEEN, None)];
        stack := stack + [(Final, block)];
        ghost var pushed := PushSuccessors(dfg, block);
        DfsVisit(GraphOf(dfg), was, old(stack), src, postorder, block, pushed) by {
          assert forall x: nat :: Seen(nodes, x) ==> x == block || Seen(was, x);
        }
        src' := Front(src) + [Last(src)] + seq(|pushed|, _ => top);
        UnseenDrops(was, block);
      } else {
        DfsSkip(GraphOf(dfg), nodes, stack, src, postorder);
        stack, src' := stack[..top], Front(src);
      }
    }

    /** Pushes a first visit of each unseen successor, the branch targets taken in reverse. */
    method PushSuccessors(dfg: Dfg, block: Block) returns (ghost pushed: seq<Frame>)
      requires dfg.WellFormed() && block < dfg.NumBlocks() == |nodes|
      modifies this`stack
      ensures stack == old(stack) + pushed
      ensures forall k :: 0 <= k < |pushed| ==> pushed[k].0 == First && Edge(GraphOf(dfg), block, pushed[k].1)
      ensures forall v: nat :: Edge(GraphOf(dfg), block, v) ==> Seen(nodes, v) || (First, v) in pushed
    {
      hide *;
      TargetsAreEdges(dfg, block);
      pushed := [];
      var jts := dfg.Targets(block);
      var k: nat := |jts|;
      while k > 0
        invariant k <= |jts| && stack == old(stack) + pushed
        invariant forall j :: 0 <= j < |pushed| ==> pushed[j].0 == First && Edge(GraphOf(dfg), block, pushed[j].1)
        invariant forall j :: k <= j < |jts| ==> Seen(nodes, jts[j].dest) || (First, jts[j].dest) in pushed
      {
        k := k - 1;
        var dest := jts[k].dest;
        SeenIff(nodes, dest);
        if nodes[dest].rpo == 0 {
          stack := stack + [(First, dest)];
          pushed := pushed + [(First, dest)];
        }
      }
    }

    method ComputeDomtree(dfg: Dfg, cfg: ControlFlowGraph) returns (ghost passes: nat)
      requires dfg.WellFormed() && Exact(dfg, cfg.data)
      requires IsPostorder(GraphOf(dfg), postorder) && |nodes| == dfg.NumBlocks()
      requires forall b: nat :: b < |nodes| ==> nodes[b] == Node(if b in postorder then SEEN else 0, None)
      modifies this`nodes
      ensures IsDomTree(dfg, nodes, postorder)
      ensures Reducible(GraphOf(dfg), nodes) ==> passes == 1
    {
      NumberBlocks(dfg, cfg);
      passes := Converge(dfg, cfg);
    }

    /** First pass: number the blocks in reverse post-order, with a first estimate of each idom. */
    method NumberBlocks(dfg: Dfg, cfg: ControlFlowGraph)
      requires dfg.WellFormed() && Exact(dfg, cfg.data)
      requires IsPostorder(GraphOf(dfg), postorder) && |nodes| == dfg.NumBlocks()
      requires forall b: nat :: b < |nodes| ==> nodes[b] == Node(if b in postorder then SEEN else 0, None)
      modifies this`nodes
      ensures OrderedBy(nodes, postorder) && IdomsAreTerminators(dfg, nodes)
      ensures TreeInv(GraphOf(dfg), nodes) && ForwardInv(GraphOf(dfg), nodes, (|postorder| + 2) * STRIDE)
    {
      hide NumberingInv, IsPostorder, TreeInv, TreeOk, ForwardInv, NcaPreds, IdomsAreTerminators, OrderedBy, GraphOf,
           Exact;
      var m := |postorder|;
      NumberStart(dfg, nodes, postorder);
      nodes := nodes[postorder[m - 1] := Node(2 * STRIDE, None)];
      var t := 0;
      while t < m - 1
        invariant 0 <= t <= m - 1 && NumberingInv(dfg, nodes, postorder, t)
      {
        var block := postorder[m - 2 - t];
        NumberingFacts(dfg, nodes, postorder, t);
        var idom := ComputeIdom(dfg, cfg, block);
        NumberStep(dfg, nodes, postorder, t, idom);
        nodes := nodes[block := Node((t + 3) * STRIDE, Some(idom))];
        t := t + 1;
      }
      NumberEnd(dfg, nodes, postorder);
    }

    /** Later passes: recompute every idom until a whole pass changes nothing. */
    method Converge(dfg: Dfg, cfg: ControlFlowGraph) returns (ghost passes: nat)
      requires dfg.WellFormed() && Exact(dfg, cfg.data)
      requires IsPostorder(GraphOf(dfg), postorder)
      requires OrderedBy(nodes, postorder) && IdomsAreTerminators(dfg, nodes)
      requires TreeInv(GraphOf(dfg), nodes) && ForwardInv(GraphOf(dfg), nodes, (|postorder| + 2) * STRIDE)
      modifies this`nodes
      ensures IsDomTree(dfg, nodes, postorder)
      ensures Reducible(GraphOf(dfg), nodes) ==> passes == 1
    {
      ghost var g := GraphOf(dfg);
      passes := 0;
      var changed := true;
      while changed
        invariant OrderedBy(nodes, postorder) && IdomsAreTerminators(dfg, nodes)
        invariant TreeInv(g, nodes) && ForwardInv(g, nodes, (|postorder| + 2) * STRIDE)
        invariant !changed ==> Settled(g, nodes)
        invariant Reducible(g, nodes) ==> passes == if changed then 0 else 1
        decreases changed, ParSum(nodes, postorder)
      {
        changed := RunPass(dfg, cfg);
        passes := passes + 1;
      }
    }

    /** One round of the convergence loop. */
    method RunPass(dfg: Dfg, cfg: ControlFlowGraph) returns (changed: bool)
      requires dfg.WellFormed() && Exact(dfg, cfg.data)
      requires IsPostorder(GraphOf(dfg), postorder)
      requires OrderedBy(nodes, postorder) && IdomsAreTerminators(dfg, nodes)
      requires TreeInv(GraphOf(dfg), nodes) && ForwardInv(GraphOf(dfg), nodes, (|postorder| + 2) * STRIDE)
      modifies this`nodes
      ensures OrderedBy(nodes, postorder) && IdomsAreTerminators(dfg, nodes)
      ensures TreeInv(GraphOf(dfg), nodes) && ForwardInv(GraphOf(dfg), nodes, (|postorder| + 2) * STRIDE)
      ensures if changed then ParSum(nodes, postorder) < ParSum(old(nodes), postorder)
              else nodes == old(nodes) && Settled(GraphOf(dfg), nodes)
      ensures AncestorsShrink(old(nodes), nodes) && (changed ==> AncestorLost(old(nodes), nodes))
      ensures Reducible(GraphOf(dfg), old(nodes)) ==> !changed
      ensures Reducible(GraphOf(dfg), nodes) ==> Reducible(GraphOf(dfg), old(nodes))
    {
      ghost var ns0 := nodes;
      changed := false;
      hide *;
      PassBegin(dfg, postorder, nodes);
      var t := 0;
      while t < |postorder| - 1
        invariant 0 <= t <= |postorder| - 1
        invariant PassState(dfg, postorder, ns0, nodes, t, changed)
      {
        var moved := Refresh(dfg, cfg, ns0, t, changed);
        changed := changed || moved;
        t := t + 1;
      }
      PassEnd(dfg, postorder, ns0, nodes, changed);
    }

    /** Recompute the idom of the next block in reverse post-order, and store it if it moved. */
    method Refresh(dfg: Dfg, cfg: ControlFlowGraph, ghost ns0: seq<Node>, t: nat, ghost changed: bool)
            returns (moved: bool)
      requires dfg.WellFormed() && Exact(dfg, cfg.data)
      requires t < |postorder| - 1 && PassState(dfg, postorder, ns0, nodes, t, changed)
      modifies this`nodes
      ensures PassState(dfg, postorder, ns0, nodes, t + 1, changed || moved)
    {
      hide *;
      PassFacts(dfg, postorder, ns0, nodes, t, changed);
      var block := postorder[|postorder| - 2 - t];
      var idom := ComputeIdom(dfg, cfg, block);
      moved := nodes[block].idom != Some(idom);
      if moved {
        PassMoves(dfg, postorder, ns0, nodes, t, changed, idom);
        nodes := nodes[block := Node(nodes[block].rpo, Some(idom))];
      } else {
        PassStays(dfg, postorder, ns0, nodes, t, changed, idom);
      }
    }

    /** The nearest common dominator of the predecessors numbered so far, under the present links. */
    method ComputeIdom(dfg: Dfg, cfg: ControlFlowGraph, block: Block) returns (idom: Inst)
      requires dfg.WellFormed() && Exact(dfg, cfg.data) && block < dfg.NumBlocks()
      requires |nodes| == dfg.NumBlocks() && TreeOk(GraphOf(dfg), nodes) && IdomsAreTerminators(dfg, nodes)
      requires exists f :: Numbered(nodes, f) && Edge(GraphOf(dfg), f, block)
      ensures NcaPreds(GraphOf(dfg), nodes, block, idom.block)
      ensures dfg.LastInst(idom.block) == Some(idom)
    {
      hide TreeOk, NcaPreds, NcaOfFirst, IsNca, ListsPreds, ListsEntries, Exact, IdomsAreTerminators, GraphOf, Edge,
           Dfg.LastInst;
      var preds := cfg.PredIter(block);
      EntriesArePreds(dfg, cfg.data, block, preds);
      PredsInRange(dfg, block, preds);
      var best: Option<BlockPredecessor> := None;
      for k := 0 to |preds|
        invariant BestOf(dfg, nodes, preds[..k], best)
      {
        TakeOneMore(preds, k);
        if nodes[preds[k].block].rpo <= 1 {
          SkipUnnumbered(dfg, nodes, preds[..k], best, preds[k]);
        } else if best.None? {
          best := Some(preds[k]);
          FirstNumbered(dfg, nodes, preds[..k], preds[k]);
        } else {
          var r := CommonDominator(dfg, best.value, preds[k]);
          NcaOneMore(nodes, preds[..k], best.value.block, preds[k], r.block);
          best := Some(r);
        }
      }
      assert preds[..|preds|] == preds;
      NcaOfAll(dfg, nodes, block, preds, best);
      idom := best.value.inst;
    }

    /** The common dominator of two numbered blocks, by walking two fingers up the tree. */
    method CommonDominator(dfg: Dfg, a0: BlockPredecessor, b0: BlockPredecessor) returns (r: BlockPredecessor)
      requires TreeOk(GraphOf(dfg), nodes) && IdomsAreTerminators(dfg, nodes)
      requires Numbered(nodes, a0.block) && dfg.LastInst(a0.block) == Some(a0.inst)
      requires Numbered(nodes, b0.block) && dfg.LastInst(b0.block) == Some(b0.inst)
      ensures Numbered(nodes, r.block) && dfg.LastInst(r.block) == Some(r.inst)
      ensures IsNca(nodes, a0.block, b0.block, r.block)
    {
      var a, b := a0, b0;
      while nodes[a.block].rpo != nodes[b.block].rpo
        invariant Numbered(nodes, a.block) && dfg.LastInst(a.block) == Some(a.inst)
        invariant Numbered(nodes, b.block) && dfg.LastInst(b.block) == Some(b.inst)
        invariant forall c: nat ::
            Anc(nodes, c, a0.block) && Anc(nodes, c, b0.block) <==> Anc(nodes, c, a.block) && Anc(nodes, c, b.block)
        decreases nodes[a.block].rpo + nodes[b.block].rpo
      {
        if Cmp(nodes[a.block].rpo, nodes[b.block].rpo) == Less {
          StepUp(GraphOf(dfg), nodes, b.block, a.block);
          var idom := nodes[b.block].idom.value;
          b := BlockPredecessor(idom.block, idom);
        } else {
          StepUp(GraphOf(dfg), nodes, a.block, b.block);
          var idom := nodes[a.block].idom.value;
          a := BlockPredecessor(idom.block, idom);
        }
      }
      r := if PpCmp(AtInst(a.inst), AtInst(b.inst)) == Less then a else b;
    }

    /** The last instruction in `a` that dominates `b`, if any does. */
    method LastDominator(dfg: Dfg, a: Block, b: ProgramPoint) returns (r: Option<Inst>)
      requires Describes(dfg) && dfg.HasPoint(b)
      ensures r == if a == b.PPBlock() then (if b.AtInst? then Some(b.inst) else None)
                   else if Anc(nodes, a, b.PPBlock()) then dfg.LastInst(a) else None
    {
      var blockB: Block := b.PPBlock();
      var instB := if b.AtInst? then Some(b.inst) else None;
      var rpoA := RpoOf(nodes, a);
      while rpoA < nodes[blockB].rpo
        invariant 0 <= blockB < |nodes|
        invariant blockB == b.PPBlock() ==> instB == if b.AtInst? then Some(b.inst) else None
        invariant blockB != b.PPBlock() ==> instB == dfg.LastInst(blockB) && nodes[blockB].rpo < nodes[b.PPBlock()].rpo
        invariant Anc(nodes, a, b.PPBlock()) <==> Anc(nodes, a, blockB)
        decreases nodes[blockB].rpo
      {
        var idom := nodes[blockB].idom;
        if idom.None? {
          return None;
        }
        assert HasParent(nodes, blockB);
        blockB := idom.value.block;
        instB := idom;
      }
      if a == blockB {
        r := instB;
      } else {
        NotAboveSmaller(dfg, nodes, postorder, a, blockB);
        r := None;
      }
    }

    /** Does `a` dominate `b`?  Within a block this is decided even where the block is unreachable;
        a point of a detached block dominates nothing. */
    method Dominates(dfg: Dfg, a: ProgramPoint, b: ProgramPoint) returns (r: bool)
      requires Describes(dfg) && (a.PPBlock() < dfg.NumBlocks() ==> dfg.HasPoint(a)) && dfg.HasPoint(b)
      ensures r <==> DominatesSpec(dfg, a, b)
    {
      var last := LastDominator(dfg, a.PPBlock(), b);
      match a {
        case AtBlock(_) =>
          r := a == b || last.Some?;
        case AtInst(instA) =>
          r := last.Some? && PpCmp(AtInst(instA), AtInst(last.value)) != Greater;
      }
      TreeFacts(dfg, nodes, postorder);
      AncHasInsts(dfg, nodes, a.PPBlock(), b.PPBlock());
      if Reachable(GraphOf(dfg), b.PPBlock()) {
        TreeIsDominance(dfg, nodes, postorder, a.PPBlock(), b.PPBlock());
        PointDomIffDom(dfg, a, b);
      }
    }
  }

  // The first pass

  /** After `t` steps the last `t + 1` blocks of the post-order are numbered. */
  ghost predicate NumberingInv(dfg: Dfg, ns: seq<Node>, post: seq<Block>, t: nat) {
    && |ns| == dfg.NumBlocks() && IsPostorder(GraphOf(dfg), post) && t < |post|
    && NumbersUpTo(ns, post, t)
    && TreeInv(GraphOf(dfg), ns) && ForwardInv(GraphOf(dfg), ns, (t + 3) * STRIDE)
    && IdomsAreTerminators(dfg, ns)
  }

  ghost predicate NumbersUpTo(ns: seq<Node>, post: seq<Block>, t: nat) {
    && (forall j :: 0 <= j < |post| ==>
          post[j] < |ns| && ns[post[j]].rpo == if |post| - 1 - t <= j then (|post| + 1 - j) * STRIDE else SEEN)
    && (forall b: nat :: b < |ns| && b !in post ==> ns[b] == Node(0, None))
  }

  lemma NumbersAfterStep(ns: seq<Node>, post: seq<Block>, t: nat, i: Inst)
    requires NoDup(post) && t < |post| - 1 && NumbersUpTo(ns, post, t)
    ensures post[|post| - 2 - t] < |ns|
    ensures NumbersUpTo(ns[post[|post| - 2 - t] := Node((t + 3) * STRIDE, Some(i))], post, t + 1)
    ensures forall x :: 0 <= x < |ns| ==> ns[x].rpo < (t + 3) * STRIDE
    ensures !Numbered(ns, post[|post| - 2 - t])
  {
    forall x | 0 <= x < |ns| ensures ns[x].rpo < (t + 3) * STRIDE {
      if x in post {
        var k :| 0 <= k < |post| && post[k] == x;
      }
    }
  }

  lemma NumberStart(dfg: Dfg, ns: seq<Node>, post: seq<Block>)
    requires IsPostorder(GraphOf(dfg), post) && |ns| == dfg.NumBlocks()
    requires forall b: nat :: b < |ns| ==> ns[b] == Node(if b in post then SEEN else 0, None)
    ensures |post| > 0 && Last(post) < |ns|
    ensures NumberingInv(dfg, ns[Last(post) := Node(2 * STRIDE, None)], post, 0)
  {
    hide TreeInv, ForwardInv, Reachable, GraphOf, Edge;
    forall j | 0 <= j < |post| ensures post[j] < |ns| {
      ReachableInRange(GraphOf(dfg), post[j]);
    }
    var ns' := ns[Last(post) := Node(2 * STRIDE, None)];
    SingletonTree(GraphOf(dfg), ns', (0 + 3) * STRIDE);
  }

  lemma SingletonTree(g: Graph, ns: seq<Node>, k: nat)
    requires |ns| == |g.succs| && Numbered(ns, g.entry) && ns[g.entry].idom.None?
    requires forall b: nat :: Numbered(ns, b) ==> b == g.entry
    ensures TreeInv(g, ns) && ForwardInv(g, ns, k)
  {
  }

  lemma NumberingFacts(dfg: Dfg, ns: seq<Node>, post: seq<Block>, t: nat)
    requires NumberingInv(dfg, ns, post, t) && t < |post| - 1
    ensures |ns| == dfg.NumBlocks() && TreeOk(GraphOf(dfg), ns) && IdomsAreTerminators(dfg, ns)
    ensures post[|post| - 2 - t] < |ns|
    ensures exists f :: Numbered(ns, f) && Edge(GraphOf(dfg), f, post[|post| - 2 - t])
  {
    hide GraphOf, Edge, TreeOk, IdomsAreTerminators, ForwardInv, Reachable, RetreatsClose;
    var j := |post| - 2 - t;
    assert HasLaterPred(GraphOf(dfg), post, j);
    var k :| j < k < |post| && Edge(GraphOf(dfg), post[k], post[j]);
    assert Numbered(ns, post[k]);
  }

  lemma NumberStep(dfg: Dfg, ns: seq<Node>, post: seq<Block>, t: nat, i: Inst)
    requires NumberingInv(dfg, ns, post, t) && t < |post| - 1
    requires dfg.LastInst(i.block) == Some(i)
    requires NcaPreds(GraphOf(dfg), ns, post[|post| - 2 - t], i.block)
    ensures post[|post| - 2 - t] < |ns|
    ensures NumberingInv(dfg, ns[post[|post| - 2 - t] := Node((t + 3) * STRIDE, Some(i))], post, t + 1)
  {
    var b := post[|post| - 2 - t];
    var n := (t + 3) * STRIDE;
    NumberingFacts(dfg, ns, post, t);
    NumbersAfterStep(ns, post, t, i);
    hide IsPostorder, TreeInv, TreeOk, ForwardInv, NumbersUpTo, NcaPreds;
    NumberBlock(GraphOf(dfg), ns, b, n, i);
    NumbersBelow(GraphOf(dfg), ns[b := Node(n, Some(i))], n + 1, n + STRIDE);
  }

  lemma NumbersBelow(g: Graph, ns: seq<Node>, k: nat, k': nat)
    requires ForwardInv(g, ns, k) && forall x :: 0 <= x < |ns| ==> ns[x].rpo < k
    ensures ForwardInv(g, ns, k')
  {
  }

  lemma NumberEnd(dfg: Dfg, ns: seq<Node>, post: seq<Block>)
    requires |post| > 0 && NumberingInv(dfg, ns, post, |post| - 1)
    ensures OrderedBy(ns, post) && IdomsAreTerminators(dfg, ns)
    ensures TreeInv(GraphOf(dfg), ns) && ForwardInv(GraphOf(dfg), ns, (|post| + 2) * STRIDE)
  {
  }

  // The two-finger walk

  /** The lower of two blocks may move up without losing a common ancestor. */
  lemma {:induction false} StepUp(g: Graph, ns: seq<Node>, x: Block, y: Block)
    requires TreeOk(g, ns) && Numbered(ns, x) && Numbered(ns, y) && ns[y].rpo < ns[x].rpo
    ensures HasParent(ns, x)
    ensures forall c: nat :: Anc(ns, c, x) && Anc(ns, c, y) <==> Anc(ns, c, Par(ns, x)) && Anc(ns, c, y)
  {
    assert x != g.entry;
    assert HasParent(ns, x);
    forall c: nat | Anc(ns, c, y) ensures c != x {
      AncNum(g, ns, c, y);
    }
  }

  /** `r` is the nearest common ancestor of the numbered blocks of `preds`. */
  ghost predicate NcaOfFirst(ns: seq<Node>, preds: seq<BlockPredecessor>, r: Block) {
    forall c: nat :: Anc(ns, c, r) <==> AncOfEach(ns, preds, c)
  }

  ghost predicate AncOfEach(ns: seq<Node>, preds: seq<BlockPredecessor>, c: nat) {
    forall i :: 0 <= i < |preds| && Numbered(ns, preds[i].block) ==> Anc(ns, c, preds[i].block)
  }

  /** `best` holds the nearest common ancestor of the numbered blocks of `preds`, if there are any. */
  ghost predicate BestOf(dfg: Dfg, ns: seq<Node>, preds: seq<BlockPredecessor>, best: Option<BlockPredecessor>) {
    match best
    case None => forall i :: 0 <= i < |preds| ==> !Numbered(ns, preds[i].block)
    case Some(r) => Numbered(ns, r.block) && dfg.LastInst(r.block) == Some(r.inst) && NcaOfFirst(ns, preds, r.block)
  }

  lemma TakeOneMore<T>(s: seq<T>, k: nat)
    requires k < |s|
    ensures s[..k + 1] == s[..k] + [s[k]]
  {
  }

  lemma PredsInRange(dfg: Dfg, b: Block, preds: seq<BlockPredecessor>)
    requires ListsPreds(dfg, b, preds)
    ensures forall k :: 0 <= k < |preds| ==>
              preds[k].block < dfg.NumBlocks() && dfg.LastInst(preds[k].block) == Some(preds[k].inst)
  {
  }

  lemma {:induction false} AncOfOneMore(ns: seq<Node>, preds: seq<BlockPredecessor>, p: BlockPredecessor, c: nat)
    ensures AncOfEach(ns, preds + [p], c) <==>
            AncOfEach(ns, preds, c) && (Numbered(ns, p.block) ==> Anc(ns, c, p.block))
  {
    var ps := preds + [p];
    assert ps[|preds|] == p;
    assert forall i :: 0 <= i < |preds| ==> ps[i] == preds[i];
  }

  lemma SkipUnnumbered(dfg: Dfg, ns: seq<Node>, preds: seq<BlockPredecessor>,
          best: Option<BlockPredecessor>, p: BlockPredecessor)
    requires BestOf(dfg, ns, preds, best) && !Numbered(ns, p.block)
    ensures BestOf(dfg, ns, preds + [p], best)
  {
    forall c: nat ensures AncOfEach(ns, preds + [p], c) <==> AncOfEach(ns, preds, c) {
      AncOfOneMore(ns, preds, p, c);
    }
  }

  lemma FirstNumbered(dfg: Dfg, ns: seq<Node>, preds: seq<BlockPredecessor>, p: BlockPredecessor)
    requires BestOf(dfg, ns, preds, None) && Numbered(ns, p.block) && dfg.LastInst(p.block) == Some(p.inst)
    ensures BestOf(dfg, ns, preds + [p], Some(p))
  {
    forall c: nat ensures AncOfEach(ns, preds + [p], c) <==> Anc(ns, c, p.block) {
      AncOfOneMore(ns, preds, p, c);
    }
  }

  lemma NcaOneMore(ns: seq<Node>, preds: seq<BlockPredecessor>, r: Block, p: BlockPredecessor, r': Block)
    requires NcaOfFirst(ns, preds, r) && Numbered(ns, p.block) && IsNca(ns, r, p.block, r')
    ensures NcaOfFirst(ns, preds + [p], r')
  {
    forall c: nat ensures AncOfEach(ns, preds + [p], c) <==> AncOfEach(ns, preds, c) && Anc(ns, c, p.block) {
      AncOfOneMore(ns, preds, p, c);
    }
  }

  lemma NcaOfAll(dfg: Dfg, ns: seq<Node>, b: Block, preds: seq<BlockPredecessor>, best: Option<BlockPredecessor>)
    requires ListsPreds(dfg, b, preds) && BestOf(dfg, ns, preds, best)
    requires exists f :: Numbered(ns, f) && Edge(GraphOf(dfg), f, b)
    ensures best.Some? && NcaPreds(GraphOf(dfg), ns, b, best.value.inst.block)
    ensures dfg.LastInst(best.value.inst.block) == Some(best.value.inst)
  {
    var f :| Numbered(ns, f) && Edge(GraphOf(dfg), f, b);
    var k :| 0 <= k < |preds| && preds[k].block == f;
    assert Numbered(ns, preds[k].block);
    forall c: nat ensures AncOfEach(ns, preds, c) <==> CommonAnc(GraphOf(dfg), ns, c, b) {
      PredsCommon(dfg, ns, b, preds, c);
    }
    assert Anc(ns, best.value.block, best.value.block);
  }

  lemma PredsCommon(dfg: Dfg, ns: seq<Node>, b: Block, preds: seq<BlockPredecessor>, c: nat)
    requires ListsPreds(dfg, b, preds)
    ensures AncOfEach(ns, preds, c) <==> CommonAnc(GraphOf(dfg), ns, c, b)
  {
    if AncOfEach(ns, preds, c) {
      forall f: nat | Numbered(ns, f) && Edge(GraphOf(dfg), f, b) ensures Anc(ns, c, f) {
        var k :| 0 <= k < |preds| && preds[k].block == f;
      }
    }
  }

  // A pass

  /** The recorded parent of `b` is what recomputing would find. */
  ghost predicate FixedAt(g: Graph, ns: seq<Node>, b: Block) {
    b < |ns| && ns[b].idom.Some? && NcaPreds(g, ns, b, Par(ns, b))
  }

  /** The blocks at positions `k` and above, the entry excepted, are fixed. */
  ghost predicate FixedFrom(g: Graph, ns: seq<Node>, post: seq<Block>, k: nat) {
    forall j {:trigger FixedAt(g, ns, post[j])} :: k <= j < |post| - 1 ==> FixedAt(g, ns, post[j])
  }

  /** Where the pass stands after `t` blocks. */
  ghost predicate PassState(dfg: Dfg, post: seq<Block>, ns0: seq<Node>, ns: seq<Node>, t: nat, changed: bool) {
    && IsPostorder(GraphOf(dfg), post) && t < |post|
    && OrderedBy(ns, post) && IdomsAreTerminators(dfg, ns)
    && PassInv(GraphOf(dfg), ns0, ns, (t + 3) * STRIDE)
    && ForwardInv(GraphOf(dfg), ns0, (|post| + 2) * STRIDE)
    && AncestorsShrink(ns0, ns)
    && (changed ==> ParSum(ns, post) < ParSum(ns0, post) && AncestorLost(ns0, ns))
    && (!changed ==> ns == ns0 && FixedFrom(GraphOf(dfg), ns, post, |post| - 1 - t))
    && (Settled(GraphOf(dfg), ns0) ==> !changed)
  }

  lemma PassBegin(dfg: Dfg, post: seq<Block>, ns: seq<Node>)
    requires IsPostorder(GraphOf(dfg), post)
    requires OrderedBy(ns, post) && IdomsAreTerminators(dfg, ns)
    requires TreeInv(GraphOf(dfg), ns) && ForwardInv(GraphOf(dfg), ns, (|post| + 2) * STRIDE)
    ensures PassState(dfg, post, ns, ns, 0, false)
  {
    PassStart(GraphOf(dfg), ns, 3 * STRIDE, (|post| + 2) * STRIDE);
  }

  lemma PositionFacts(g: Graph, ns: seq<Node>, post: seq<Block>, j: nat)
    requires OrderedBy(ns, post) && IsPostorder(g, post) && j < |post| - 1
    ensures post[j] < |ns| && post[j] in post && post[j] != g.entry && ns[post[j]].rpo == (|post| + 1 - j) * STRIDE
  {
  }

  lemma PassFacts(dfg: Dfg, post: seq<Block>, ns0: seq<Node>, ns: seq<Node>, t: nat, changed: bool)
    requires PassState(dfg, post, ns0, ns, t, changed) && t < |post| - 1
    ensures var b := post[|post| - 2 - t];
            && |ns| == dfg.NumBlocks() && TreeOk(GraphOf(dfg), ns) && IdomsAreTerminators(dfg, ns)
            && b < |ns| && exists f :: Numbered(ns, f) && Edge(GraphOf(dfg), f, b)
  {
    var b := post[|post| - 2 - t];
    PositionFacts(GraphOf(dfg), ns, post, |post| - 2 - t);
    assert HasForwardPred(GraphOf(dfg), ns, b);
  }

  /** What a pass knows about the next block and the idom recomputed for it. */
  lemma {:induction false} PassAt(dfg: Dfg, post: seq<Block>, ns0: seq<Node>, ns: seq<Node>,
          t: nat, changed: bool, i: Inst)
    requires PassState(dfg, post, ns0, ns, t, changed) && t < |post| - 1
    requires NcaPreds(GraphOf(dfg), ns, post[|post| - 2 - t], i.block)
    ensures post[|post| - 2 - t] < |ns|
    ensures var b := post[|post| - 2 - t]; var ns' := ns[b := Node(ns[b].rpo, Some(i))];
            && PassInv(GraphOf(dfg), ns0, ns', (t + 4) * STRIDE)
            && HasParent(ns, b) && Numbered(ns, i.block) && Anc(ns, i.block, Par(ns, b))
            && ns[i.block].rpo <= ns[Par(ns, b)].rpo
  {
    hide PassState, PassInv, TreeInv, ForwardInv, NcaPreds, IsPostorder, OrderedBy, IdomsAreTerminators,
         GraphOf, Anc, HasParent;
    var b: Block := post[|post| - 2 - t];
    PassParts(dfg, post, ns0, ns, t, changed);
    PositionFacts(GraphOf(dfg), ns, post, |post| - 2 - t);
    ForwardNarrow(GraphOf(dfg), ns0, (t + 3) * STRIDE + 1, (|post| + 2) * STRIDE);
    PassStep(GraphOf(dfg), post, ns0, ns, t + 3, b, i);
  }

  lemma {:induction false} PassParts(dfg: Dfg, post: seq<Block>, ns0: seq<Node>, ns: seq<Node>, t: nat, changed: bool)
    requires PassState(dfg, post, ns0, ns, t, changed)
    ensures IsPostorder(GraphOf(dfg), post) && OrderedBy(ns, post) && IdomsAreTerminators(dfg, ns)
    ensures TreeInv(GraphOf(dfg), ns) && ForwardInv(GraphOf(dfg), ns0, (|post| + 2) * STRIDE) && t < |post|
    ensures PassInv(GraphOf(dfg), ns0, ns, (t + 3) * STRIDE) && AncestorsShrink(ns0, ns)
    ensures changed ==> ParSum(ns, post) < ParSum(ns0, post) && AncestorLost(ns0, ns)
    ensures !changed ==> ns == ns0 && FixedFrom(GraphOf(dfg), ns, post, |post| - 1 - t)
    ensures Settled(GraphOf(dfg), ns0) ==> !changed
  {
  }

  /** The recomputed idom differs: it is stored. */
  lemma PassMoves(dfg: Dfg, post: seq<Block>, ns0: seq<Node>, ns: seq<Node>, t: nat, changed: bool, i: Inst)
    requires PassState(dfg, post, ns0, ns, t, changed) && t < |post| - 1
    requires dfg.LastInst(i.block) == Some(i) && NcaPreds(GraphOf(dfg), ns, post[|post| - 2 - t], i.block)
    requires post[|post| - 2 - t] < |ns| && ns[post[|post| - 2 - t]].idom != Some(i)
    ensures var b := post[|post| - 2 - t];
            PassState(dfg, post, ns0, ns[b := Node(ns[b].rpo, Some(i))], t + 1, true)
  {
    hide *;
    var b := post[|post| - 2 - t];
    PassParts(dfg, post, ns0, ns, t, changed);
    PositionFacts(GraphOf(dfg), ns, post, |post| - 2 - t);
    PassAt(dfg, post, ns0, ns, t, changed, i);
    StoreKeepsOrder(dfg, ns, post, b, i);
    MoveLowersSum(dfg, ns, post, b, i);
    ParentMoves(dfg, ns0, ns, b, i);
    if Settled(GraphOf(dfg), ns0) {
      SettledStays(dfg, ns, post, b, i);
    }
    PassRestate(dfg, post, ns0, ns[b := Node(ns[b].rpo, Some(i))], t + 1, true);
  }

  lemma ParentMoves(dfg: Dfg, ns0: seq<Node>, ns: seq<Node>, b: Block, i: Inst)
    requires TreeInv(GraphOf(dfg), ns) && IdomsAreTerminators(dfg, ns) && AncestorsShrink(ns0, ns)
    requires b < |ns| && HasParent(ns, b) && Numbered(ns, i.block) && Anc(ns, i.block, Par(ns, b))
    requires dfg.LastInst(i.block) == Some(i) && ns[b].idom != Some(i)
    ensures AncestorsShrink(ns0, ns[b := Node(ns[b].rpo, Some(i))])
    ensures AncestorLost(ns0, ns[b := Node(ns[b].rpo, Some(i))])
  {
    hide PredOrdered, DomInv, ParBound, AncestorsShrink, AncestorLost, GraphOf, Anc;
    assert i.block != Par(ns, b);
    MoveLosesAncestor(GraphOf(dfg), ns0, ns, b, i);
  }

  lemma FixedOneMore(dfg: Dfg, ns: seq<Node>, post: seq<Block>, k: nat, i: Inst)
    requires k < |post| && post[k] < |ns| && ns[post[k]].idom == Some(i) && NcaPreds(GraphOf(dfg), ns, post[k], i.block)
    ensures FixedFrom(GraphOf(dfg), ns, post, k + 1) ==> FixedFrom(GraphOf(dfg), ns, post, k)
  {
    assert FixedAt(GraphOf(dfg), ns, post[k]);
  }

  /** The recomputed idom is the recorded one. */
  lemma PassStays(dfg: Dfg, post: seq<Block>, ns0: seq<Node>, ns: seq<Node>, t: nat, changed: bool, i: Inst)
    requires PassState(dfg, post, ns0, ns, t, changed) && t < |post| - 1
    requires NcaPreds(GraphOf(dfg), ns, post[|post| - 2 - t], i.block)
    requires post[|post| - 2 - t] < |ns| && ns[post[|post| - 2 - t]].idom == Some(i)
    ensures PassState(dfg, post, ns0, ns, t + 1, changed)
  {
    hide *;
    var b := post[|post| - 2 - t];
    PassParts(dfg, post, ns0, ns, t, changed);
    PassAt(dfg, post, ns0, ns, t, changed, i);
    FixedOneMore(dfg, ns, post, |post| - 2 - t, i);
    assert ns[b := Node(ns[b].rpo, Some(i))] == ns;
    PassRestate(dfg, post, ns0, ns, t + 1, changed);
  }

  lemma {:induction false} PassRestate(dfg: Dfg, post: seq<Block>, ns0: seq<Node>, ns: seq<Node>, t: nat, changed: bool)
    requires IsPostorder(GraphOf(dfg), post) && OrderedBy(ns, post) && IdomsAreTerminators(dfg, ns)
    requires PassInv(GraphOf(dfg), ns0, ns, (t + 3) * STRIDE)
    requires ForwardInv(GraphOf(dfg), ns0, (|post| + 2) * STRIDE) && t < |post|
    requires AncestorsShrink(ns0, ns)
    requires changed ==> ParSum(ns, post) < ParSum(ns0, post) && AncestorLost(ns0, ns)
    requires !changed ==> ns == ns0 && FixedFrom(GraphOf(dfg), ns, post, |post| - 1 - t)
    requires Settled(GraphOf(dfg), ns0) ==> !changed
    ensures PassState(dfg, post, ns0, ns, t, changed)
  {
  }

  lemma ForwardNarrow(g: Graph, ns: seq<Node>, k: nat, top: nat)
    requires ForwardInv(g, ns, top) && k <= top
    ensures ForwardInv(g, ns, k)
  {
  }

  /** What the pass has established when it has visited every block. */
  lemma {:induction false} PassEnd(dfg: Dfg, post: seq<Block>, ns0: seq<Node>, ns: seq<Node>, changed: bool)
    requires |post| > 0 && PassState(dfg, post, ns0, ns, |post| - 1, changed)
    ensures OrderedBy(ns, post) && IdomsAreTerminators(dfg, ns)
    ensures TreeInv(GraphOf(dfg), ns) && ForwardInv(GraphOf(dfg), ns, (|post| + 2) * STRIDE)
    ensures if changed then ParSum(ns, post) < ParSum(ns0, post) else ns == ns0 && Settled(GraphOf(dfg), ns)
    ensures AncestorsShrink(ns0, ns) && (changed ==> AncestorLost(ns0, ns))
    ensures Reducible(GraphOf(dfg), ns0) ==> !changed
    ensures Reducible(GraphOf(dfg), ns) ==> Reducible(GraphOf(dfg), ns0)
  {
    if !changed {
      FixedIsSettled(GraphOf(dfg), ns, post);
    }
    ReducibleIsOrder(GraphOf(dfg), ns0, ns);
    if Reducible(GraphOf(dfg), ns0) {
      forall b: nat | Numbered(ns0, b) ensures ns0[b].rpo < (|post| + 2) * STRIDE {
        assert Numbered(ns, b) && b in post;
        var j :| 0 <= j < |post| && post[j] == b;
      }
      ReducibleIsSettled(GraphOf(dfg), ns0, (|post| + 2) * STRIDE);
    }
  }

  lemma SettledStays(dfg: Dfg, ns: seq<Node>, post: seq<Block>, b: Block, i: Inst)
    requires OrderedBy(ns, post) && IsPostorder(GraphOf(dfg), post) && IdomsAreTerminators(dfg, ns)
    requires TreeInv(GraphOf(dfg), ns) && Settled(GraphOf(dfg), ns)
    requires HasParent(ns, b)
    requires NcaPreds(GraphOf(dfg), ns, b, i.block) && dfg.LastInst(i.block) == Some(i)
    ensures ns[b].idom == Some(i)
  {
    TreeDomainIsReachable(GraphOf(dfg), ns, post);
    SettledIsFixpoint(GraphOf(dfg), ns, b, i.block);
  }

  lemma FixedIsSettled(g: Graph, ns: seq<Node>, post: seq<Block>)
    requires OrderedBy(ns, post) && IsPostorder(g, post)
    requires FixedFrom(g, ns, post, 0)
    ensures Settled(g, ns)
  {
    forall h: nat | Numbered(ns, h) && h != g.entry ensures FixedAt(g, ns, h) {
      assert h in post;
      var j :| 0 <= j < |post| && post[j] == h;
    }
  }

  lemma ReducibleIsSettled(g: Graph, ns: seq<Node>, top: nat)
    requires Reducible(g, ns) && ForwardInv(g, ns, top)
    requires forall b: nat :: Numbered(ns, b) ==> ns[b].rpo < top
    ensures Settled(g, ns)
  {
    forall f: nat, h: nat | Numbered(ns, f) && Numbered(ns, h) && h != g.entry && HasParent(ns, h) && Edge(g, f, h)
      ensures Anc(ns, Par(ns, h), f) || Dom(g, h, f)
    {
      if ns[f].rpo < ns[h].rpo {
        assert ForwardEdge(g, ns, f, h);
      }
    }
  }

  /** Reducibility depends on the numbers only. */
  lemma ReducibleIsOrder(g: Graph, ns: seq<Node>, ns': seq<Node>)
    requires |ns| == |ns'| && forall b: nat :: b < |ns| ==> ns[b].rpo == ns'[b].rpo
    ensures Reducible(g, ns) <==> Reducible(g, ns')
  {
    assert forall b: nat :: Numbered(ns, b) <==> Numbered(ns', b);
  }

  lemma TreeDomainIsReachable(g: Graph, ns: seq<Node>, post: seq<Block>)
    requires OrderedBy(ns, post) && IsPostorder(g, post)
    ensures forall b: nat :: Reachable(g, b) <==> Numbered(ns, b)
  {
  }

  lemma StoreKeepsOrder(dfg: Dfg, ns: seq<Node>, post: seq<Block>, b: Block, i: Inst)
    requires OrderedBy(ns, post) && IdomsAreTerminators(dfg, ns)
    requires b in post && b < |ns| && dfg.LastInst(i.block) == Some(i)
    ensures OrderedBy(ns[b := Node(ns[b].rpo, Some(i))], post)
    ensures IdomsAreTerminators(dfg, ns[b := Node(ns[b].rpo, Some(i))])
  {
  }

  /** A moved link goes strictly up. */
  lemma MoveLowersSum(dfg: Dfg, ns: seq<Node>, post: seq<Block>, b: Block, i: Inst)
    requires TreeInv(GraphOf(dfg), ns) && IdomsAreTerminators(dfg, ns)
    requires b in post && HasParent(ns, b) && Numbered(ns, i.block)
    requires ns[i.block].rpo <= ns[Par(ns, b)].rpo
    requires ns[b].idom != Some(i) && dfg.LastInst(i.block) == Some(i)
    ensures ParSum(ns[b := Node(ns[b].rpo, Some(i))], post) < ParSum(ns, post)
  {
    var ns' := ns[b := Node(ns[b].rpo, Some(i))];
    assert i.block != Par(ns, b);
    forall x | x in post ensures ParWeight(ns', x) <= ParWeight(ns, x) {
      assert x != b ==> HasParent(ns', x) == HasParent(ns, x);
    }
    ParSumLess(ns, ns', post, b);
  }

  // Queries

  /** A walk that has climbed to a block numbered no higher than `a` has `a` only if it is there. */
  lemma {:induction false} NotAboveSmaller(dfg: Dfg, ns: seq<Node>, post: seq<Block>, a: Block, b: Block)
    requires IsDomTree(dfg, ns, post) && b < |ns| && ns[b].rpo <= RpoOf(ns, a) && a != b
    ensures !Anc(ns, a, b)
  {
    if Anc(ns, a, b) {
      AncNum(GraphOf(dfg), ns, a, b);
    }
  }

  lemma {:induction false} AncHasInsts(dfg: Dfg, ns: seq<Node>, a: Block, b: Block)
    requires IdomsAreTerminators(dfg, ns)
    ensures a != b && Anc(ns, a, b) ==> dfg.LastInst(a).Some?
    decreases if b < |ns| then ns[b].rpo else 0
  {
    if a != b && Anc(ns, a, b) && a != Par(ns, b) {
      AncHasInsts(dfg, ns, a, Par(ns, b));
    }
  }

  ghost function Unseen(ns: seq<Node>): nat {
    if |ns| == 0 then 0 else (if ns[0].rpo == 0 then 1 else 0) + Unseen(ns[1..])
  }

  lemma SeenIff(ns: seq<Node>, b: Block)
    ensures Seen(ns, b) <==> b < |ns| && ns[b].rpo != 0
  {
  }

  lemma {:induction false} UnseenDrops(ns: seq<Node>, b: nat)
    requires b < |ns| && ns[b].rpo == 0
    ensures Unseen(ns[b := Node(SEEN, None)]) < Unseen(ns)
    decreases b
  {
    if b == 0 {
      assert ns[b := Node(SEEN, None)][1..] == ns[1..];
    } else {
      UnseenDrops(ns[1..], b - 1);
      assert ns[b := Node(SEEN, None)][1..] == ns[1..][b - 1 := Node(SEEN, None)];
    }
  }
}
