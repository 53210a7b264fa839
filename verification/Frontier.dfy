/** Dominance frontiers: where the dominance of a block ends. */
module Frontier {
  import opened IR
  import opened Graphs
  import opened ControlFlow
  import opened DomTreeTheory
  import opened Dominance

  /** `n` is in the dominance frontier of `b`: `b` dominates a predecessor of `n`, but not `n` strictly. */
  ghost predicate InFrontier(g: Graph, b: Block, n: Block) {
    !StrictDom(g, b, n) && exists p: Block :: DominatedPred(g, b, p, n)
  }

  ghost predicate DominatedPred(g: Graph, b: Block, p: Block, n: Block) {
    Edge(g, p, n) && Reachable(g, p) && Dom(g, b, p)
  }

  /** `x` lies on the way from `p` up to, but without, `d`. */
  ghost predicate OnRun(ns: seq<Node>, x: Block, p: Block, d: Block) {
    Anc(ns, x, p) && !Anc(ns, x, d)
  }

  /** The join `n` is recorded at `x`. */
  ghost predicate JoinsAt(dfg: Dfg, data: CfgData, ns: seq<Node>, x: Block, n: Block) {
    && n < |ns| && ns[n].idom.Some? && |Preds(data, n)| >= 2
    && exists p: Block :: Edge(GraphOf(dfg), p, n) && OnRun(ns, x, p, Par(ns, n))
  }

  // What the runs collect

  /** A block with a single predecessor is in no frontier. */
  lemma SinglePredNoFrontier(g: Graph, b: Block, n: Block, p: Block)
    requires Reachable(g, n) && n != g.entry && Edge(g, p, n)
    requires forall q: Block :: Edge(g, q, n) ==> q == p
    ensures !InFrontier(g, b, n)
  {
    if Dom(g, b, p) {
      DomFromPreds(g, b, n);
      var r :| PathTo(g, g.entry, r, n);
      var q := FirstVisit(g, g.entry, r, n);
      assert |q| > 1;
      assert PathTo(g, g.entry, Front(q), Last(Front(q)));
      assert Last(Front(q)) == p;
      assert b in Front(q);
    }
  }

  /** With two or more predecessors, the runs reach exactly the blocks whose frontier has `n`. */
  lemma RunsAreFrontier(dfg: Dfg, ns: seq<Node>, post: seq<Block>, b: Block, n: Block)
    requires IsDomTree(dfg, ns, post) && Reachable(GraphOf(dfg), b)
    requires n < |ns| && ns[n].idom.Some?
    ensures InFrontier(GraphOf(dfg), b, n) <==> exists p: Block ::
        Edge(GraphOf(dfg), p, n) && OnRun(ns, b, p, Par(ns, n))
  {
    var g, d := GraphOf(dfg), Par(ns, n);
    IdomIsImmediate(dfg, ns, post, n);
    TreeFacts(dfg, ns, post);
    DomReachable(g, d, n);
    TreeIsDominance(dfg, ns, post, b, d);
    if InFrontier(g, b, n) {
      var p: Block :| DominatedPred(g, b, p, n);
      TreeIsDominance(dfg, ns, post, b, p);
      if Dom(g, b, d) {
        DomTrans(g, b, d, n);
        assert b == n;
        DomAntisym(g, b, d);
      }
      assert OnRun(ns, b, p, d);
    }
    if p: Block :| Edge(g, p, n) && OnRun(ns, b, p, d) {
      assert Reachable(g, p) by {
        assert !HasParent(ns, p) ==> b == p;
      }
      TreeIsDominance(dfg, ns, post, b, p);
      assert DominatedPred(g, b, p, n);
      assert StrictDom(g, b, n) ==> Dom(g, b, d);
    }
  }

  /** What the loop records is the frontier, except that the entry block is never in one. */
  lemma JoinsAreFrontier(dfg: Dfg, data: CfgData, ns: seq<Node>, post: seq<Block>, b: Block, n: Block)
    requires IsDomTree(dfg, ns, post) && Exact(dfg, data) && Reachable(GraphOf(dfg), b)
    ensures n in post && JoinsAt(dfg, data, ns, b, n) <==> n != dfg.entry && InFrontier(GraphOf(dfg), b, n)
  {
    var g := GraphOf(dfg);
    TreeFacts(dfg, ns, post);
    if InFrontier(g, b, n) {
      var p: Block :| DominatedPred(g, b, p, n);
      ReachableStep(g, p, n);
    }
    if Reachable(g, n) {
      ReachableInRange(g, n);
      IdomIsImmediate(dfg, ns, post, n);
      if n != dfg.entry {
        RunsAreFrontier(dfg, ns, post, b, n);
        if |Preds(data, n)| < 2 {
          var f := OnlyPred(dfg, data, ns, n);
          SinglePredNoFrontier(g, b, n, f);
        }
      }
    }
  }

  lemma OnlyPred(dfg: Dfg, data: CfgData, ns: seq<Node>, n: Block) returns (f: Block)
    requires dfg.WellFormed() && Exact(dfg, data) && n < dfg.NumBlocks() && |Preds(data, n)| < 2
    requires TreeOk(GraphOf(dfg), ns) && PredOrdered(GraphOf(dfg), ns) && Numbered(ns, n) && n != dfg.entry
    ensures Edge(GraphOf(dfg), f, n) && forall q: Block :: Edge(GraphOf(dfg), q, n) ==> q == f
  {
    assert HasForwardPred(GraphOf(dfg), ns, n);
    f :| ForwardEdge(GraphOf(dfg), ns, f, n);
    var i := EdgeEntry(dfg, data, f, n);
    forall q: Block | Edge(GraphOf(dfg), q, n) ensures q == f {
      var j := EdgeEntry(dfg, data, q, n);
      if q != f {
        assert {i, j} <= Preds(data, n).Keys;
        SubsetSize({i, j}, Preds(data, n).Keys);
      }
    }
  }

  lemma EdgeEntry(dfg: Dfg, data: CfgData, f: Block, n: Block) returns (i: Inst)
    requires Exact(dfg, data) && Edge(GraphOf(dfg), f, n)
    ensures i in Preds(data, n) && i.block == f
  {
    EdgeIff(dfg, f, n);
    i := Inst(f, |dfg.Insts(f)| - 1);
    assert Branches(dfg, i, n);
    assert IsPred(data, i, n);
  }

  lemma {:induction false} SubsetSize<T>(s: set<T>, t: set<T>)
    requires s <= t
    ensures |s| <= |t|
  {
    if s != {} {
      var x :| x in s;
      SubsetSize(s - {x}, t - {x});
    }
  }

  /** For each reachable block the set recorded is its frontier, the entry block left out. */
  ghost predicate HoldsFrontiers(dfg: Dfg, dfs: seq<set<Block>>) {
    && |dfs| == dfg.NumBlocks()
    && forall b: Block, n: Block ::
         b < |dfs| && Reachable(GraphOf(dfg), b) ==> (n in dfs[b] <==> n != dfg.entry && InFrontier(GraphOf(dfg), b, n))
  }

  /** The sets recorded are the documented frontiers exactly when no reachable block branches to the entry. */
  lemma FrontierIsDocumented(dfg: Dfg, dfs: seq<set<Block>>)
    requires dfg.WellFormed() && HoldsFrontiers(dfg, dfs)
    ensures (forall b: Block, n: Block ::
               b < |dfs| && Reachable(GraphOf(dfg), b) ==> (n in dfs[b] <==> InFrontier(GraphOf(dfg), b, n)))
            <==> (forall p: Block :: Reachable(GraphOf(dfg), p) ==> !Edge(GraphOf(dfg), p, dfg.entry))
  {
    var g := GraphOf(dfg);
    EntryReachable(g);
    if p: Block :| Reachable(g, p) && Edge(g, p, g.entry) {
      EntryDoms(g, p);
      assert DominatedPred(g, g.entry, p, g.entry);
      assert InFrontier(g, g.entry, g.entry) && g.entry !in dfs[g.entry];
    }
    forall b: Block | InFrontier(g, b, g.entry) ensures exists p: Block :: Reachable(g, p) && Edge(g, p, g.entry) {
      var p: Block :| DominatedPred(g, b, p, g.entry);
    }
  }

  // The loops

  /** One predecessor more: `dfs'` has `n` added along its run. */
  ghost predicate RunAdded(ns: seq<Node>, dfs: seq<set<Block>>, dfs': seq<set<Block>>, p: Block, d: Block, n: Block) {
    |dfs'| == |dfs| && forall x: Block :: x < |dfs| ==> dfs'[x] == dfs[x] + if OnRun(ns, x, p, d) then {n} else {}
  }

  /** The runs of the first `k` predecessors have been added. */
  ghost predicate RunsAdded(ns: seq<Node>, dfs: seq<set<Block>>, dfs': seq<set<Block>>,
          preds: seq<BlockPredecessor>, k: nat, d: Block, n: Block) {
    |dfs'| == |dfs| && forall x: Block ::
        x < |dfs| ==> dfs'[x] == dfs[x] + if OnSomeRun(ns, x, preds, k, d) then {n} else {}
  }

  ghost predicate OnSomeRun(ns: seq<Node>, x: Block, preds: seq<BlockPredecessor>, k: nat, d: Block) {
    exists j :: 0 <= j < k && j < |preds| && OnRun(ns, x, preds[j].block, d)
  }

  /** A block that branches to itself. */
  function EntryLoop(): Dfg {
    Dfg(0, [BlockData([], [InstNode(Br(JumpTable(0, [])), [])])], map[], map[])
  }

  /** The entry is in its own frontier, but not in the set recorded for it. */
  lemma EntryFrontierMissed(dfs: seq<set<Block>>)
    requires HoldsFrontiers(EntryLoop(), dfs) && |dfs| == 1
    ensures EntryLoop().WellFormed()
    ensures InFrontier(GraphOf(EntryLoop()), 0, 0) && 0 !in dfs[0]
  {
    var g := GraphOf(EntryLoop());
    EdgeIff(EntryLoop(), 0, 0);
    assert EntryLoop().Targets(0) == [JumpTable(0, [])];
    assert JumpTable(0, []) in EntryLoop().Targets(0);
    EntryReachable(g);
    DomRefl(g, 0);
    assert DominatedPred(g, 0, 0, 0);
  }

  lemma OneMoreRun(ns: seq<Node>, dfs: seq<set<Block>>, dfs1: seq<set<Block>>, dfs2: seq<set<Block>>,
                   preds: seq<BlockPredecessor>, k: nat, d: Block, n: Block)
    requires k < |preds| && RunsAdded(ns, dfs, dfs1, preds, k, d, n) && RunAdded(ns, dfs1, dfs2, preds[k].block, d, n)
    ensures RunsAdded(ns, dfs, dfs2, preds, k + 1, d, n)
  {
    forall x: Block | x < |dfs|
      ensures OnSomeRun(ns, x, preds, k + 1, d) <==> OnSomeRun(ns, x, preds, k, d) || OnRun(ns, x, preds[k].block, d)
    {
      if OnSomeRun(ns, x, preds, k, d) {
        var j :| 0 <= j < k && j < |preds| && OnRun(ns, x, preds[j].block, d);
      }
    }
  }

  /** The joins among the first `k` blocks of the post-order are recorded. */
  ghost predicate JoinsRecorded(dfg: Dfg, data: CfgData, ns: seq<Node>, post: seq<Block>,
          k: nat, dfs: seq<set<Block>>) {
    && k <= |post| && |dfs| == |ns|
    && forall x: Block, n: Block :: x < |dfs| ==> (n in dfs[x] <==> n in post[..k] && JoinsAt(dfg, data, ns, x, n))
  }

  lemma RecordJoin(dfg: Dfg, data: CfgData, ns: seq<Node>, post: seq<Block>, k: nat,
                   dfs: seq<set<Block>>, dfs': seq<set<Block>>, preds: seq<BlockPredecessor>)
    requires JoinsRecorded(dfg, data, ns, post, k, dfs) && k < |post|
    requires post[k] < |ns| && ns[post[k]].idom.Some? && |Preds(data, post[k])| >= 2
    requires ListsPreds(dfg, post[k], preds)
    requires RunsAdded(ns, dfs, dfs', preds, |preds|, Par(ns, post[k]), post[k])
    ensures JoinsRecorded(dfg, data, ns, post, k + 1, dfs')
  {
    var m := post[k];
    assert post[..k + 1] == post[..k] + [m];
    forall x: Block ensures JoinsAt(dfg, data, ns, x, m) <==> OnSomeRun(ns, x, preds, |preds|, Par(ns, m)) {
      if JoinsAt(dfg, data, ns, x, m) {
        var p: Block :| Edge(GraphOf(dfg), p, m) && OnRun(ns, x, p, Par(ns, m));
        var j :| 0 <= j < |preds| && preds[j].block == p;
      }
    }
  }

  lemma SkipJoin(dfg: Dfg, data: CfgData, ns: seq<Node>, post: seq<Block>, k: nat, dfs: seq<set<Block>>)
    requires JoinsRecorded(dfg, data, ns, post, k, dfs) && k < |post| && |Preds(data, post[k])| < 2
    ensures JoinsRecorded(dfg, data, ns, post, k + 1, dfs)
  {
    assert post[..k + 1] == post[..k] + [post[k]];
  }

  class DominanceFrontier {
    var dfs: seq<set<Block>>

    constructor ()
      ensures dfs == []
    {
      dfs := [];
    }

    /** Computes the frontier of every block; `false` stands for the panic on an entry block that has
        two or more predecessors, and so no immediate dominator to stop at. */
    method Compute(domtree: DominatorTree, cfg: ControlFlowGraph, dfg: Dfg) returns (ok: bool)
      requires domtree.Describes(dfg) && Exact(dfg, cfg.data)
      modifies this
      ensures ok <==> |Preds(cfg.data, dfg.entry)| < 2
      ensures ok ==> HoldsFrontiers(dfg, dfs)
    {
      ghost var ns, post := domtree.nodes, domtree.postorder;
      hide *;
      TreeOf(domtree, dfg);
      dfs := seq(|domtree.nodes|, _ => {});
      FrontierBegin(dfg, cfg.data, ns, post);
      var k := 0;
      while k < |domtree.postorder|
        invariant 0 <= k <= |post| && JoinsRecorded(dfg, cfg.data, ns, post, k, dfs)
        invariant k == |post| ==> |Preds(cfg.data, dfg.entry)| < 2
      {
        var id := domtree.postorder[k];
        FrontierAt(dfg, cfg.data, ns, post, k);
        if |Preds(cfg.data, id)| < 2 {
          SkipJoin(dfg, cfg.data, ns, post, k, dfs);
        } else {
          var idom := domtree.nodes[id].idom;
          if idom.None? {
            return false;
          }
          ghost var was := dfs;
          ghost var preds := RunAll(domtree, cfg, dfg, id, idom.value);
          RecordJoin(dfg, cfg.data, ns, post, k, was, dfs, preds);
        }
        k := k + 1;
      }
      FrontierEnd(dfg, cfg.data, ns, post, dfs);
      ok := true;
    }

    /** The runs of all predecessors of the join `id`. */
    method RunAll(domtree: DominatorTree, cfg: ControlFlowGraph, dfg: Dfg, id: Block, idom: Inst)
            returns (ghost preds: seq<BlockPredecessor>)
      requires domtree.Describes(dfg) && Exact(dfg, cfg.data) && id < dfg.NumBlocks() == |dfs|
      requires domtree.nodes[id].idom == Some(idom)
      modifies this
      ensures ListsPreds(dfg, id, preds)
      ensures RunsAdded(domtree.nodes, old(dfs), dfs, preds, |preds|, idom.block, id)
    {
      hide *;
      TreeOf(domtree, dfg);
      var ps := cfg.PredIter(id);
      preds := ps;
      ListedPreds(dfg, cfg.data, id, ps);
      NoRuns(domtree.nodes, dfs, ps, idom.block, id);
      var k := 0;
      while k < |ps|
        invariant 0 <= k <= |ps| && RunsAdded(domtree.nodes, old(dfs), dfs, ps, k, idom.block, id)
        invariant |dfs| == |old(dfs)|
      {
        ghost var was := dfs;
        RunUp(domtree, dfg, ps[k].block, ps[k].inst, id, idom);
        OneMoreRun(domtree.nodes, old(dfs), was, dfs, ps, k, idom.block, id);
        SameCount(domtree.nodes, old(dfs), dfs, ps, k + 1, idom.block, id);
        k := k + 1;
      }
    }

    /** Walks up from one predecessor until the idom of the join, recording the join on the way. */
    method RunUp(domtree: DominatorTree, dfg: Dfg, p0: Block, i0: Inst, id: Block, idom: Inst)
      requires domtree.Describes(dfg) && |dfs| == dfg.NumBlocks()
      requires id < |domtree.nodes| && domtree.nodes[id].idom == Some(idom)
      requires Edge(GraphOf(dfg), p0, id) && dfg.LastInst(p0) == Some(i0)
      modifies this
      ensures RunAdded(domtree.nodes, old(dfs), dfs, p0, idom.block, id)
    {
      hide *;
      TreeOf(domtree, dfg);
      ghost var ns := domtree.nodes;
      var p: Block, i: Inst := p0, i0;
      RunBegin(dfg, ns, domtree.postorder, p0, i0, id, idom);
      RunStarts(ns, dfs, p0, id);
      while i != idom
        invariant RunState(dfg, ns, p0, p, i, idom)
        invariant RunAdded(ns, old(dfs), dfs, p0, p, id) && p < |dfs| == |ns|
        decreases ns[p].rpo
      {
        RunNext(dfg, ns, old(dfs), dfs, p0, p, i, id, idom);
        dfs := dfs[p := dfs[p] + {id}];
        var idomP := domtree.nodes[p].idom;
        if idomP.None? {
          return;
        }
        i := idomP.value;
        p := idomP.value.block;
      }
      RunStops(dfg, ns, p0, p, i, idom);
    }
  }

  lemma TreeOf(domtree: DominatorTree, dfg: Dfg)
    requires domtree.Describes(dfg)
    ensures IsDomTree(dfg, domtree.nodes, domtree.postorder) && |domtree.nodes| == dfg.NumBlocks()
  {
  }

  lemma FrontierBegin(dfg: Dfg, data: CfgData, ns: seq<Node>, post: seq<Block>)
    requires IsDomTree(dfg, ns, post)
    ensures JoinsRecorded(dfg, data, ns, post, 0, seq(|ns|, _ => {})) && |post| > 0
  {
  }

  lemma FrontierAt(dfg: Dfg, data: CfgData, ns: seq<Node>, post: seq<Block>, k: nat)
    requires IsDomTree(dfg, ns, post) && k < |post|
    ensures post[k] < |ns|
    ensures post[k] == dfg.entry <==> k == |post| - 1
    ensures ns[post[k]].idom.None? <==> post[k] == dfg.entry
  {
    TreeFacts(dfg, ns, post);
    IdomIsImmediate(dfg, ns, post, post[k]);
  }

  lemma FrontierEnd(dfg: Dfg, data: CfgData, ns: seq<Node>, post: seq<Block>, dfs: seq<set<Block>>)
    requires IsDomTree(dfg, ns, post) && Exact(dfg, data) && JoinsRecorded(dfg, data, ns, post, |post|, dfs)
    ensures HoldsFrontiers(dfg, dfs)
  {
    assert post[..|post|] == post;
    forall b: Block, n: Block | Reachable(GraphOf(dfg), b)
      ensures b < |dfs| && (n in dfs[b] <==> n != dfg.entry && InFrontier(GraphOf(dfg), b, n))
    {
      ReachableInRange(GraphOf(dfg), b);
      JoinsAreFrontier(dfg, data, ns, post, b, n);
    }
  }

  lemma ListedPreds(dfg: Dfg, data: CfgData, b: Block, r: seq<BlockPredecessor>)
    requires dfg.WellFormed() && Exact(dfg, data) && b < dfg.NumBlocks() && ListsEntries(Preds(data, b), r)
    ensures ListsPreds(dfg, b, r)
    ensures forall k ::
        0 <= k < |r| ==> Edge(GraphOf(dfg), r[k].block, b) && dfg.LastInst(r[k].block) == Some(r[k].inst)
  {
    EntriesArePreds(dfg, data, b, r);
  }

  lemma NoRuns(ns: seq<Node>, dfs: seq<set<Block>>, preds: seq<BlockPredecessor>, d: Block, n: Block)
    ensures RunsAdded(ns, dfs, dfs, preds, 0, d, n)
  {
  }

  lemma SameCount(ns: seq<Node>, dfs: seq<set<Block>>, dfs': seq<set<Block>>, preds: seq<BlockPredecessor>, k: nat,
          d: Block, n: Block)
    requires RunsAdded(ns, dfs, dfs', preds, k, d, n)
    ensures |dfs'| == |dfs|
  {
  }

  /** The finger is at an ancestor of `p0`; `d` is still above it, if `p0` is reachable. */
  ghost predicate RunState(dfg: Dfg, ns: seq<Node>, p0: Block, p: Block, i: Inst, idom: Inst) {
    && TreeOk(GraphOf(dfg), ns) && IdomsAreTerminators(dfg, ns)
    && p < |ns| && dfg.LastInst(p) == Some(i) && dfg.LastInst(idom.block) == Some(idom)
    && Anc(ns, p, p0) && Numbered(ns, idom.block) && (Numbered(ns, p0) ==> Anc(ns, idom.block, p) && Numbered(ns, p))
    && (!Numbered(ns, p0) ==> p == p0 && ns[p0].idom.None?)
    && (forall b: Block :: b < |ns| && ns[b].idom.Some? ==> HasParent(ns, b))
  }

  lemma RunBegin(dfg: Dfg, ns: seq<Node>, post: seq<Block>, p0: Block, i0: Inst, id: Block, idom: Inst)
    requires IsDomTree(dfg, ns, post) && id < |ns| && ns[id].idom == Some(idom)
    requires Edge(GraphOf(dfg), p0, id) && dfg.LastInst(p0) == Some(i0)
    ensures p0 < |ns| && RunState(dfg, ns, p0, p0, i0, idom)
  {
    var g := GraphOf(dfg);
    TreeFacts(dfg, ns, post);
    IdomIsImmediate(dfg, ns, post, id);
    DomReachable(g, idom.block, id);
    if Numbered(ns, p0) {
      DomPred(g, idom.block, p0, id);
      TreeIsDominance(dfg, ns, post, idom.block, p0);
    }
  }

  lemma RunStarts(ns: seq<Node>, dfs: seq<set<Block>>, p0: Block, n: Block)
    ensures RunAdded(ns, dfs, dfs, p0, p0, n)
  {
  }

  /** One step up the tree. */
  lemma RunNext(dfg: Dfg, ns: seq<Node>, dfs0: seq<set<Block>>, dfs: seq<set<Block>>, p0: Block, p: Block, i: Inst,
          id: Block, idom: Inst)
    requires RunState(dfg, ns, p0, p, i, idom) && RunAdded(ns, dfs0, dfs, p0, p, id) && p < |dfs| == |ns| && i != idom
    ensures match ns[p].idom
            case None => RunAdded(ns, dfs0, dfs[p := dfs[p] + {id}], p0, idom.block, id)
            case Some(j) => j.block < |ns| && ns[j.block].rpo < ns[p].rpo
                            && RunState(dfg, ns, p0, j.block, j, idom)
                            && RunAdded(ns, dfs0, dfs[p := dfs[p] + {id}], p0, j.block, id)
  {
    var g, d := GraphOf(dfg), idom.block;
    assert p != d;
    if ns[p].idom.None? {
      assert !HasParent(ns, p);
      forall x: Block ensures OnRun(ns, x, p0, d) <==> x == p {
        if Anc(ns, x, d) {
          AncNum(g, ns, x, d);
        }
      }
    } else {
      var q := Par(ns, p);
      assert HasParent(ns, p);
      if Numbered(ns, p0) {
        AncNum(g, ns, q, q);
      }
      AncTrans(ns, q, p, p0);
      forall x: Block ensures OnRun(ns, x, p0, q) <==> OnRun(ns, x, p0, p) || x == p {
        if x == p && Anc(ns, p, q) {
          AncNum(g, ns, p, q);
        }
      }
    }
  }

  lemma RunStops(dfg: Dfg, ns: seq<Node>, p0: Block, p: Block, i: Inst, idom: Inst)
    requires RunState(dfg, ns, p0, p, i, idom) && i == idom
    ensures p == idom.block
  {
  }
}
