/** How the passes fit together: what validation and splitting give to the analysis of liveness. */
module Pipeline {
  import opened IR
  import opened Graphs
  import opened ControlFlow
  import opened Validation
  import opened Split
  import opened LivenessTheory
  import opened Liveness

  /** In a block of a valid function only the terminator branches. */
  lemma OnlyTerminatorBranches(d: Dfg, b: Block, k: nat)
    requires BlockOk(d, b) && k < |d.Insts(b)| && !d.Insts(b)[k].data.AnalyzeBranch().NotABranch?
    ensures k == |d.Insts(b)| - 1
  {
  }

  lemma ValidBranchesLast(d: Dfg)
    requires ValidFunction(d)
    ensures BranchesLast(d)
  {
    hide Reachable;
    forall b: Block, k: nat, t | Reachable(GraphOf(d), b) && BranchesFrom(d, b, k, t) ensures k == |d.Insts(b)| - 1 {
      ReachableInRange(GraphOf(d), b);
      assert BlockOk(d, b);
    }
  }

  /** A branch with several edges, to different blocks, has two targets; a switch needs an arm for it. */
  lemma ManyEdgesTwoTargets(d: Dfg, b: Block)
    requires BlockOk(d, b) && d.Insts(b)[|d.Insts(b)| - 1].data.AnalyzeBranch().MultiDest?
    requires SwitchesHaveArms(d)
    ensures TwoTargets(d, b)
  {
    var i := Inst(b, |d.Insts(b)| - 1);
    assert d.HasInst(i);
    assert |d.Targets(b)| >= 2;
    assert d.Targets(b)[0].dest != d.Targets(b)[1].dest;
  }

  /** After splitting a valid function whose switches have an arm, no reachable block makes the analysis
      of liveness give up. */
  lemma SplitMakesAnalyzable(d0: Dfg, d: Dfg, data: CfgData, b: Block)
    requires Consistent(d0) && ValidFunction(d0) && SwitchesHaveArms(d0)
    requires Preserves(d0, d) && Attached(d) && NoCriticalEdges(d) && Exact(d, data)
    requires Reachable(GraphOf(d), b)
    ensures Analyzable(d, data, b)
  {
    hide Reachable, NoCriticalEdges, Exact, BlockOk, SwitchesHaveArms, TwoTargets, OnlySource, Consistent,
         SameReachable, SameDominance, SameRuns, AddedBlocksSilent, SameJoinsForks;
    ReachableInRange(GraphOf(d), b);
    assert BlockOk(d, b);
    BlockHasInsts(d, b);
    forall k: nat | k < |d.Insts(b)| ensures BranchOk(d, data, b, k) {
      if d.Insts(b)[k].data.AnalyzeBranch().MultiDest? {
        OnlyTerminatorBranches(d, b, k);
        ManyEdgesTwoTargets(d, b);
        SplitEnablesLiveness(d, data, b);
        assert d.Targets(b) == d.Insts(b)[k].data.Targets();
      }
    }
  }

  lemma BlockHasInsts(d: Dfg, b: Block)
    requires BlockOk(d, b)
    ensures |d.Insts(b)| > 0
  {
  }
}
