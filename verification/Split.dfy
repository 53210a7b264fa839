/** The pass that splits critical edges: it works through the blocks in breadth-first order, moving
    the arguments of each critical edge into a new block, and keeps the control flow graph in step. */
module Split {
  import opened IR
  import opened Graphs
  import opened ControlFlow
  import opened Semantics
  import opened Validation
  import opened SplitTheory
  import opened CriticalEdges

  predicate EndsInSwitch(dfg: Dfg, p: Block) {
    |dfg.Insts(p)| > 0 && Terminator(dfg, p).Switch?
  }

  /** The pass does not know how to split an edge of a switch. */
  ghost predicate Blocked(dfg: Dfg, p: Block) {
    EndsInSwitch(dfg, p) && !NoCritical(GraphOf(dfg), p)
  }

  // What splitting preserves

  ghost predicate SameReachable(d0: Dfg, d: Dfg) {
    forall x: Block {:trigger Reachable(GraphOf(d), x)} :: x < d0.NumBlocks() ==>
      (Reachable(GraphOf(d), x) <==> Reachable(GraphOf(d0), x))
  }

  ghost predicate SameDominance(d0: Dfg, d: Dfg) {
    forall a: Block, c: Block {:trigger Dom(GraphOf(d), a, c)} :: a < d0.NumBlocks() && c < d0.NumBlocks() ==>
      (Dom(GraphOf(d), a, c) <==> Dom(GraphOf(d0), a, c))
  }

  /** The same places are reached with the same values after the same instructions, and the same
      results are returned. */
  ghost predicate SameRuns(d0: Dfg, d: Dfg) {
    forall c: Config {:trigger Reaches(d, c)} :: Original(d0.NumBlocks(), c) ==> (Reaches(d, c) <==> Reaches(d0, c))
  }

  ghost predicate SameState(d0: Dfg, c: Config, c0: Config)
    requires c.At?
  {
    c0.At? && c0.block < d0.NumBlocks() && c0.env == c.env && c0.trace == c.trace && Reaches(d0, c0)
  }

  ghost predicate HasSameState(d0: Dfg, c: Config)
    requires c.At?
  {
    exists c0 :: SameState(d0, c, c0)
  }

  /** The added blocks only pass control on: they run in states the original reaches. */
  ghost predicate AddedBlocksSilent(d0: Dfg, d: Dfg) {
    forall c: Config {:trigger Reaches(d, c)} ::
      !Original(d0.NumBlocks(), c) && Reaches(d, c) ==> c.pos == 0 && HasSameState(d0, c)
  }

  ghost predicate StaysValid(d0: Dfg, d: Dfg) {
    Consistent(d0) && ValidFunction(d0) ==> Consistent(d) && ValidFunction(d)
  }

  /** Blocks join and fork as before; the added ones do not fork. */
  ghost predicate SameJoinsForks(d0: Dfg, d: Dfg) {
    && (forall x: Block {:trigger Joins(GraphOf(d), x)} :: x < d0.NumBlocks() ==>
          (Joins(GraphOf(d), x) <==> Joins(GraphOf(d0), x)))
    && (forall x: Block {:trigger Forks(GraphOf(d), x)} :: x < d0.NumBlocks() ==>
          (Forks(GraphOf(d), x) <==> Forks(GraphOf(d0), x)))
    && (forall x: Block {:trigger Forks(GraphOf(d), x)} :: d0.NumBlocks() <= x ==> !Forks(GraphOf(d), x))
  }

  ghost predicate SwitchesHaveArms(d: Dfg) {
    forall i: Inst {:trigger d.HasInst(i)} :: d.HasInst(i) && d.InstAt(i).data.Switch? ==> |d.InstAt(i).data.arms| > 0
  }

  /** A block none of whose edges has been split is as it was; of any other only the branch has changed. */
  ghost predicate OnlyRedirects(d0: Dfg, d: Dfg, x: Block) {
    && d.Params(x) == d0.Params(x) && |d.Insts(x)| == |d0.Insts(x)|
    && (forall k: nat :: k + 1 < |d0.Insts(x)| ==> d.Insts(x)[k] == d0.Insts(x)[k])
    && (KeepsEdges(GraphOf(d0), GraphOf(d), x) ==> d.Insts(x) == d0.Insts(x))
  }

  ghost predicate KeepsEdges(g0: Graph, g: Graph, x: nat) {
    forall y: nat {:trigger Edge(g0, x, y)} :: Edge(g0, x, y) ==> Edge(g, x, y)
  }

  /** Only critical edges that control can take have been split, each once. */
  ghost predicate NothingElse(d0: Dfg, d: Dfg) {
    && Subdivides(GraphOf(d0), GraphOf(d))
    && forall x: Block {:trigger OnlyRedirects(d0, d, x)} :: x < d0.NumBlocks() ==> OnlyRedirects(d0, d, x)
  }

  ghost predicate Preserves(d0: Dfg, d: Dfg) {
    && d.entry == d0.entry && d0.NumBlocks() <= d.NumBlocks()
    && d.values == d0.values && d.types == d0.types
    && SameReachable(d0, d) && SameDominance(d0, d)
    && SameRuns(d0, d) && AddedBlocksSilent(d0, d)
    && StaysValid(d0, d) && SameJoinsForks(d0, d)
    && (SwitchesHaveArms(d0) ==> SwitchesHaveArms(d))
    && NothingElse(d0, d)
  }

  ghost predicate Attached(dfg: Dfg) {
    dfg.WellFormed() && BranchesAttached(dfg)
  }

  lemma ReachedInRange(dfg: Dfg, c: Config)
    requires dfg.entry < dfg.NumBlocks() && Reaches(dfg, c)
    ensures Original(dfg.NumBlocks(), c)
  {
    var cs :| IsRun(dfg, cs) && cs[|cs| - 1] == c;
    RunInRange(dfg, cs);
  }

  lemma {:induction false} RunInRange(dfg: Dfg, cs: seq<Config>)
    requires dfg.entry < dfg.NumBlocks() && IsRun(dfg, cs)
    ensures Original(dfg.NumBlocks(), cs[|cs| - 1])
    decreases |cs|
  {
    if |cs| > 1 {
      RunInRange(dfg, cs[..|cs| - 1]);
      StepStaysOriginal(dfg, cs[|cs| - 2], cs[|cs| - 1]);
    }
  }

  lemma PreservesRefl(d: Dfg)
    requires d.WellFormed()
    ensures Preserves(d, d)
  {
    forall c: Config | Reaches(d, c) ensures Original(d.NumBlocks(), c) {
      ReachedInRange(d, c);
    }
    forall x: Block | d.NumBlocks() <= x ensures !Forks(GraphOf(d), x) {
    }
    SubdividesRefl(GraphOf(d));
    hide Subdivides, Forks, Joins, Reachable, Dom;
  }

  lemma PreservesTrans(d0: Dfg, d1: Dfg, d2: Dfg)
    requires Preserves(d0, d1) && Preserves(d1, d2)
    ensures Preserves(d0, d2)
  {
    hide Reachable, Dom, Reaches, GraphOf, Consistent, ValidFunction, Joins, Forks, SwitchesHaveArms, NothingElse;
    NothingElseTrans(d0, d1, d2);
    forall c: Config | !Original(d0.NumBlocks(), c) && Reaches(d2, c) ensures c.pos == 0 && HasSameState(d0, c) {
      if Original(d1.NumBlocks(), c) {
        assert Reaches(d1, c);
      } else {
        assert HasSameState(d1, c);
        var c1 :| SameState(d1, c, c1);
        if Original(d0.NumBlocks(), c1) {
          assert SameState(d0, c, c1);
        } else {
          assert HasSameState(d0, c1);
          var c0 :| SameState(d0, c1, c0);
          assert SameState(d0, c, c0);
        }
      }
    }
  }

  lemma NothingElseTrans(d0: Dfg, d1: Dfg, d2: Dfg)
    requires NothingElse(d0, d1) && NothingElse(d1, d2) && SameReachable(d0, d1)
    requires d0.NumBlocks() <= d1.NumBlocks()
    ensures NothingElse(d0, d2)
  {
    hide Subdivides, OnlyRedirects, Reachable, GraphOf;
    SubdividesTrans(GraphOf(d0), GraphOf(d1), GraphOf(d2));
    forall x: Block | x < d0.NumBlocks() ensures OnlyRedirects(d0, d2, x) {
      assert OnlyRedirects(d0, d1, x) && OnlyRedirects(d1, d2, x);
      KeptAlong(GraphOf(d0), GraphOf(d1), GraphOf(d2), x);
      RedirectsTrans(d0, d1, d2, x);
    }
  }

  lemma RedirectsTrans(d0: Dfg, d1: Dfg, d2: Dfg, x: Block)
    requires OnlyRedirects(d0, d1, x) && OnlyRedirects(d1, d2, x)
    requires KeepsEdges(GraphOf(d0), GraphOf(d2), x) ==>
               KeepsEdges(GraphOf(d0), GraphOf(d1), x) && KeepsEdges(GraphOf(d1), GraphOf(d2), x)
    ensures OnlyRedirects(d0, d2, x)
  {
    hide KeepsEdges, GraphOf;
  }

  /** Edges that are there in the end were there all along. */
  lemma KeptAlong(g0: Graph, g1: Graph, g: Graph, x: nat)
    requires Subdivides(g0, g1) && Subdivides(g1, g) && x < |g0.succs|
    ensures KeepsEdges(g0, g, x) ==> KeepsEdges(g0, g1, x) && KeepsEdges(g1, g, x)
  {
    if KeepsEdges(g0, g, x) {
      KeptEdges(g0, g1, g, x);
    }
  }

  lemma KeptEdges(g0: Graph, g1: Graph, g: Graph, x: nat)
    requires Subdivides(g0, g1) && Subdivides(g1, g) && x < |g0.succs| && KeepsEdges(g0, g, x)
    ensures KeepsEdges(g0, g1, x) && KeepsEdges(g1, g, x)
  {
    hide CanTake;
    forall y: nat | Edge(g0, x, y) ensures Edge(g1, x, y) {
      assert Edge(g, x, y);
    }
    forall y: nat | Edge(g1, x, y) ensures Edge(g, x, y) {
      if y < |g0.succs| {
        assert Edge(g0, x, y);
      } else {
        OldReplacement(g0, g1, y);
        var p: nat, b: nat :| Replaces(g0, g1, y, p, b);
        TakenIsEdge(g0, p, b);
      }
    }
  }

  lemma SplitNothingElse(dfg: Dfg, p: Block, b: Block)
    requires Splittable(dfg, p, b) && dfg.WellFormed() && CanTake(GraphOf(dfg), p, b)
    ensures NothingElse(dfg, SplitEdge(dfg, p, b))
  {
    hide SplitEdge, CanTake, Subdivides, GraphOf;
    SplitShape(dfg, p, b);
    SplitGraph(dfg, p, b);
    var d := SplitEdge(dfg, p, b);
    SplitSubdivides(GraphOf(dfg), p, b, GraphOf(d));
    assert Edge(GraphOf(dfg), p, b) && !Edge(GraphOf(d), p, b) by {
      TakenIsEdge(GraphOf(dfg), p, b);
    }
  }

  lemma SplitPreserves(dfg: Dfg, p: Block, b: Block)
    requires Splittable(dfg, p, b) && Attached(dfg) && CanTake(GraphOf(dfg), p, b)
    ensures Preserves(dfg, SplitEdge(dfg, p, b)) && Attached(SplitEdge(dfg, p, b))
  {
    hide SplitEdge, Splittable, Reachable, Dom, Reaches, Consistent, ValidFunction, Edge, BranchesAttached, AtEdge,
         Joins, Forks, SwitchesHaveArms, NothingElse;
    TakenIsReached(GraphOf(dfg), p, b);
    SplitNothingElse(dfg, p, b);
    var d := SplitEdge(dfg, p, b);
    var g, g' := GraphOf(dfg), GraphOf(d);
    SplitShape(dfg, p, b);
    SplitGraph(dfg, p, b);
    SplitWellFormed(dfg, p, b);
    SplitAttached(dfg, p, b);
    forall x: Block | x < dfg.NumBlocks() ensures Reachable(g', x) <==> Reachable(g, x) {
      SplitReachable(g, p, b, g', x);
    }
    forall a: Block, c: Block | a < dfg.NumBlocks() && c < dfg.NumBlocks() ensures Dom(g', a, c) <==> Dom(g, a, c) {
      SplitDom(g, p, b, g', a, c);
    }
    forall c: Config ensures Original(dfg.NumBlocks(), c) ==> (Reaches(d, c) <==> Reaches(dfg, c)) {
      SplitReaches(dfg, p, b, c);
    }
    forall c: Config | !Original(dfg.NumBlocks(), c) && Reaches(d, c) ensures c.pos == 0 && HasSameState(dfg, c) {
      SplitReaches(dfg, p, b, c);
      var c0 :| StandsFor(dfg, p, b, c, c0);
      SourceIsOriginal(dfg, p, b, c0);
      EdgeParts(dfg, p, b, c0);
      assert SameState(dfg, c, c0);
    }
    forall x: Block | x < dfg.NumBlocks()
      ensures Joins(g', x) <==> Joins(g, x)
      ensures Forks(g', x) <==> Forks(g, x)
    {
      SplitJoins(g, p, b, g', x);
      SplitForks(g, p, b, g', x);
    }
    forall x: Block | dfg.NumBlocks() <= x ensures !Forks(g', x) {
      NewVertexPlain(g, p, b, g');
      NoForkBeyond(g', x);
    }
    SplitKeepsArms(dfg, p, b);
    if Consistent(dfg) && ValidFunction(dfg) {
      ValidDefsAttached(dfg);
      SplitConsistent(dfg, p, b);
      SplitIsValid(dfg, p, b);
    }
  }

  lemma TakenIsReached(g: Graph, p: nat, b: nat)
    requires CanTake(g, p, b)
    ensures Reachable(g, p)
  {
  }

  lemma NoForkBeyond(g: Graph, x: nat)
    ensures |g.succs| <= x ==> !Forks(g, x)
  {
  }

  lemma SplitKeepsArms(dfg: Dfg, p: Block, b: Block)
    requires Splittable(dfg, p, b)
    ensures SwitchesHaveArms(dfg) ==> SwitchesHaveArms(SplitEdge(dfg, p, b))
  {
    hide SplitEdge;
    SplitShape(dfg, p, b);
    var d := SplitEdge(dfg, p, b);
    if SwitchesHaveArms(dfg) {
      forall i: Inst | d.HasInst(i) && d.InstAt(i).data.Switch? ensures |d.InstAt(i).data.arms| > 0 {
        assert dfg.HasInst(i) && d.InstAt(i) == dfg.InstAt(i);
      }
    }
  }

  lemma EdgeParts(dfg: Dfg, p: Block, b: Block, c: Config)
    requires Splittable(dfg, p, b) && AtEdge(dfg, p, b, c)
    ensures c.At?
  {
  }

  // Where critical edges remain

  /** Splitting an edge of `p` does not change whether another vertex shares its targets. */
  lemma SplitOtherPred(g: Graph, p: nat, b: nat, g': Graph, x: nat, y: nat)
    requires SplitsGraph(g, p, b, g') && x < |g.succs| && y < |g.succs| && (x != p || y != b)
    ensures OtherPred(g', x, y) <==> OtherPred(g, x, y)
  {
    var n := |g.succs|;
    if OtherPred(g, x, y) {
      var z: nat :| z != x && Edge(g, z, y);
      if z == p && y == b {
        assert Edge(g', n, y);
      } else {
        assert Edge(g', z, y);
      }
    }
    if OtherPred(g', x, y) {
      var z: nat :| z != x && Edge(g', z, y);
      if z == n {
        assert Edge(g, p, y);
      } else {
        assert Edge(g, z, y);
      }
    }
  }

  lemma SplitNoCritical(g: Graph, p: nat, b: nat, g': Graph, x: nat)
    requires SplitsGraph(g, p, b, g') && x < |g.succs| && x != p && NoCritical(g, x)
    ensures NoCritical(g', x)
  {
    forall y: nat | Edge(g', x, y) && OtherSucc(g', x, y) ensures !OtherPred(g', x, y) {
      assert Edge(g, x, y);
      SplitOtherPred(g, p, b, g', x, y);
      var z: nat :| z != y && Edge(g', x, z);
      assert Edge(g, x, z);
      assert !Critical(g, x, y);
    }
  }

  ghost predicate OneSucc(g: Graph, x: nat) {
    forall y: nat, z: nat :: Edge(g, x, y) && Edge(g, x, z) ==> y == z
  }

  /** From `d1` to `d` only edges leaving `p` have been split. */
  ghost predicate SplitsFrom(d1: Dfg, p: Block, d: Dfg) {
    && Preserves(d1, d) && Attached(d1) && Attached(d)
    && (forall x: Block :: x < d1.NumBlocks() && x != p ==> d.Insts(x) == d1.Insts(x))
    && (forall x: Block, y: Block {:trigger OtherPred(GraphOf(d), x, y)} ::
          x < d1.NumBlocks() && y < d1.NumBlocks() && x != p ==>
            (OtherPred(GraphOf(d), x, y) <==> OtherPred(GraphOf(d1), x, y)))
    && (forall x: Block {:trigger NoCritical(GraphOf(d), x)} ::
          x < d1.NumBlocks() && x != p && NoCritical(GraphOf(d1), x) ==> NoCritical(GraphOf(d), x))
    && (forall x: Block {:trigger OneSucc(GraphOf(d), x)} :: d1.NumBlocks() <= x ==> OneSucc(GraphOf(d), x))
  }

  lemma SplitsNone(d: Dfg, p: Block)
    requires Attached(d)
    ensures SplitsFrom(d, p, d)
  {
    PreservesRefl(d);
  }

  /** A branch with two targets forks. */
  lemma SplittableForks(d: Dfg, p: Block, b: Block)
    requires Splittable(d, p, b) && d.WellFormed()
    ensures Edge(GraphOf(d), p, b) && OtherSucc(GraphOf(d), p, b)
  {
    hide Edge, GraphOf;
    var last := Terminator(d, p);
    BranchSuccs(d, p);
    EdgeIff(d, p, b);
    var z := if last.thenDest.dest == b then last.elseDest.dest else last.thenDest.dest;
    SuccInRange(d, p, z);
    EdgeIff(d, p, z);
  }

  lemma CriticalParts(g: Graph, p: nat, b: nat)
    requires Reachable(g, p) && Edge(g, p, b) && OtherPred(g, p, b) && OtherSucc(g, p, b)
    ensures CanTake(g, p, b)
  {
  }

  lemma SplitsOneMore(d1: Dfg, p: Block, d: Dfg, b: Block)
    requires SplitsFrom(d1, p, d) && Splittable(d, p, b) && p < d1.NumBlocks() && Reachable(GraphOf(d1), p)
    requires OtherPred(GraphOf(d), p, b)
    ensures SplitsFrom(d1, p, SplitEdge(d, p, b))
  {
    hide SplitEdge, Splittable, Reachable, BranchesAttached, OtherPred, Critical, Edge, Dom, NoCritical,
         SameDominance, SameRuns, StaysValid, AddedBlocksSilent, NothingElse;
    var d' := SplitEdge(d, p, b);
    var g, g' := GraphOf(d), GraphOf(d');
    assert Reachable(g, p);
    SplitShape(d, p, b);
    SplitGraph(d, p, b);
    SplittableForks(d, p, b);
    CriticalParts(g, p, b);
    SplitPreserves(d, p, b);
    PreservesTrans(d1, d, d');
    forall x: Block, y: Block | x < d1.NumBlocks() && y < d1.NumBlocks() && x != p
      ensures OtherPred(g', x, y) <==> OtherPred(GraphOf(d1), x, y)
    {
      SplitOtherPred(g, p, b, g', x, y);
      assert OtherPred(g, x, y) <==> OtherPred(GraphOf(d1), x, y);
    }
    forall x: Block | x < d1.NumBlocks() && x != p && NoCritical(GraphOf(d1), x) ensures NoCritical(g', x) {
      assert NoCritical(g, x);
      SplitNoCritical(g, p, b, g', x);
    }
    forall x: Block | d1.NumBlocks() <= x ensures OneSucc(g', x) {
      assert OneSucc(g, x);
      if x != |g.succs| {
        assert forall y: nat :: Edge(g', x, y) ==> Edge(g, x, y);
      }
    }
  }

  // Editing a function

  class Function {
    var dfg: Dfg

    constructor (dfg: Dfg)
      ensures this.dfg == dfg
    {
      this.dfg := dfg;
    }

    /** A new block without parameters and instructions; every other block is untouched. */
    method CreateBlock() returns (block: Block)
      modifies this
      ensures block == old(dfg).NumBlocks() && dfg.NumBlocks() == block + 1 && OthersKept(old(dfg), dfg, block)
      ensures dfg.Params(block) == [] && dfg.Insts(block) == [] && SuccSet(dfg, block) == {}
    {
      block := dfg.NumBlocks();
      dfg := WithBlock(dfg, BlockData([], []));
    }

    /** Only what the last instruction of the block does is replaced, and with it the block's edges. */
    method SetTerminator(block: Block, data: Instruction)
      requires block < dfg.NumBlocks() && |dfg.Insts(block)| > 0
      modifies this
      ensures dfg.NumBlocks() == old(dfg).NumBlocks() && OthersKept(old(dfg), dfg, block)
      ensures dfg.Params(block) == old(dfg).Params(block) && |dfg.Insts(block)| == |old(dfg).Insts(block)|
      ensures forall k: nat :: k < |dfg.Insts(block)| - 1 ==> dfg.Insts(block)[k] == old(dfg).Insts(block)[k]
      ensures Terminator(dfg, block) == data && dfg.Targets(block) == data.Targets()
      ensures dfg.Insts(block)[|dfg.Insts(block)| - 1].results == old(dfg).Insts(block)[|dfg.Insts(block)| - 1].results
    {
      dfg := WithTerminator(dfg, block, data);
    }

    /** Insertion after a block, that is at its end: the new instruction becomes the terminator. */
    method InsertInst(block: Block, data: Instruction)
      requires block < dfg.NumBlocks()
      modifies this
      ensures dfg.NumBlocks() == old(dfg).NumBlocks() && OthersKept(old(dfg), dfg, block)
      ensures dfg.Params(block) == old(dfg).Params(block) && |dfg.Insts(block)| == |old(dfg).Insts(block)| + 1
      ensures forall k: nat :: k < |old(dfg).Insts(block)| ==> dfg.Insts(block)[k] == old(dfg).Insts(block)[k]
      ensures Terminator(dfg, block) == data && dfg.Targets(block) == data.Targets()
      ensures dfg.Insts(block)[|old(dfg).Insts(block)|].results == []
    {
      dfg := WithInst(dfg, block, data);
    }

    /** The block `split` takes over the edge from `p` to `b`, with its arguments. */
    method SplitCriticalEdge(p: Block, b: Block) returns (split: Block)
      requires Splittable(dfg, p, b)
      modifies this
      ensures split == old(dfg).NumBlocks() && dfg == SplitEdge(old(dfg), p, b)
    {
      split := CreateBlock();
      var terminator := Terminator(dfg, p);
      var args: seq<Value>;
      if terminator.thenDest.dest == b {
        args := terminator.thenDest.args;
        SetTerminator(p, terminator.(thenDest := JumpTable(split, [])));
      } else {
        args := terminator.elseDest.args;
        SetTerminator(p, terminator.(elseDest := JumpTable(split, [])));
      }
      InsertInst(split, Br(JumpTable(b, args)));
      EditsSplit(old(dfg), p, b, dfg);
    }
  }

  /** Apart from block `b`, the two functions are the same. */
  ghost predicate OthersKept(d: Dfg, d': Dfg, b: Block) {
    && d'.entry == d.entry && d'.values == d.values && d'.types == d.types
    && forall x: Block :: x != b ==> d'.Params(x) == d.Params(x) && d'.Insts(x) == d.Insts(x)
  }

  /** Functions with the same blocks are the same. */
  lemma SameFunction(d: Dfg, d': Dfg)
    requires d'.entry == d.entry && d'.values == d.values && d'.types == d.types && d'.NumBlocks() == d.NumBlocks()
    requires forall x: Block :: x < d.NumBlocks() ==> d'.Params(x) == d.Params(x) && d'.Insts(x) == d.Insts(x)
    ensures d' == d
  {
    forall x: Block | x < d.NumBlocks() ensures d'.blocks[x] == d.blocks[x] {
      assert d'.Params(x) == d.Params(x) && d'.Insts(x) == d.Insts(x);
    }
    assert d'.blocks == d.blocks;
  }

  /** The edits together amount to splitting the edge. */
  lemma EditsSplit(d: Dfg, p: Block, b: Block, d': Dfg)
    requires Splittable(d, p, b) && d'.NumBlocks() == d.NumBlocks() + 1
    requires d'.entry == d.entry && d'.values == d.values && d'.types == d.types
    requires forall x: Block :: x < d.NumBlocks() ==> d'.Params(x) == d.Params(x)
    requires forall x: Block :: x < d.NumBlocks() && x != p ==> d'.Insts(x) == d.Insts(x)
    requires var m := |d.Insts(p)| - 1;
             && |d'.Insts(p)| == m + 1 && (forall k: nat :: k < m ==> d'.Insts(p)[k] == d.Insts(p)[k])
             && d'.Insts(p)[m] == d.Insts(p)[m].(data := Redirect(Terminator(d, p), b, d.NumBlocks()))
    requires d'.Params(d.NumBlocks()) == []
    requires d'.Insts(d.NumBlocks()) == [InstNode(Br(JumpTable(b, ArgsTo(Terminator(d, p), b))), [])]
    ensures d' == SplitEdge(d, p, b)
  {
    hide SplitEdge;
    SplitShape(d, p, b);
    assert d'.Insts(p) == SplitEdge(d, p, b).Insts(p);
    SameFunction(SplitEdge(d, p, b), d');
  }

  function WithInst(dfg: Dfg, block: Block, data: Instruction): Dfg
    requires block < dfg.NumBlocks()
  {
    dfg.(blocks := dfg.blocks[block := dfg.blocks[block].(insts := dfg.Insts(block) + [InstNode(data, [])])])
  }

  // The edges of one block

  /** The function whose graph is being kept while the edges of `p` are split: there, `p` still has
      its old terminator. */
  function Virtual(d1: Dfg, p: Block, d: Dfg): Dfg
    requires p < d1.NumBlocks() <= d.NumBlocks()
  {
    d.(blocks := d.blocks[p := d1.blocks[p]])
  }

  /** The successors from `k` on have not been looked at; the others cause no critical edge. */
  ghost predicate SuccsDone(d1: Dfg, d: Dfg, p: Block, succs: seq<Block>, k: nat) {
    && k <= |succs|
    && (forall j: nat :: j < |succs| ==> Edge(GraphOf(d1), p, succs[j]))
    && (forall j: nat :: k <= j < |succs| ==> Edge(GraphOf(d), p, succs[j]))
    && (forall i: nat, j: nat :: i < j < |succs| ==> succs[i] != succs[j])
    && (forall y: nat {:trigger OtherPred(GraphOf(d), p, y)} ::
          Edge(GraphOf(d), p, y) && OtherPred(GraphOf(d), p, y) ==> y in succs[k..])
  }

  /** Only a conditional branch is ever rewritten, and its two targets stay different. */
  ghost predicate TerminatorKept(d1: Dfg, p: Block, d: Dfg) {
    && |d1.Insts(p)| > 0 && |d.Insts(p)| > 0
    && if Terminator(d1, p).CondBr?
       then Terminator(d, p).CondBr? && Terminator(d, p).thenDest.dest != Terminator(d, p).elseDest.dest
       else d == d1 && Terminator(d, p).Switch?
  }

  ghost predicate SplitState(d1: Dfg, p: Block, d: Dfg, data: CfgData, succs: seq<Block>, k: nat) {
    && p < d1.NumBlocks() && Reachable(GraphOf(d1), p) && (forall y: nat :: OtherSucc(GraphOf(d1), p, y))
    && SplitsFrom(d1, p, d) && TerminatorKept(d1, p, d) && SuccsDone(d1, d, p, succs, k)
    && Exact(Virtual(d1, p, d), data)
  }

  lemma VirtualInsts(d1: Dfg, p: Block, d: Dfg)
    requires p < d1.NumBlocks() <= d.NumBlocks()
    ensures var v := Virtual(d1, p, d);
            && v.NumBlocks() == d.NumBlocks() && v.entry == d.entry
            && (forall x: Block :: v.Insts(x) == if x == p then d1.Insts(p) else d.Insts(x))
  {
  }

  lemma SameInsts(d: Dfg, v: Dfg, x: Block)
    requires d.Insts(x) == v.Insts(x)
    ensures d.Targets(x) == v.Targets(x) && SuccSet(d, x) == SuccSet(v, x)
  {
  }

  lemma VirtualWellFormed(d1: Dfg, p: Block, d: Dfg, v: Dfg)
    requires p < d1.NumBlocks() <= d.NumBlocks() && d1.WellFormed() && d.WellFormed()
    requires v.NumBlocks() == d.NumBlocks() && v.entry == d.entry
    requires forall x: Block :: v.Insts(x) == if x == p then d1.Insts(p) else d.Insts(x)
    ensures v.WellFormed()
  {
    forall x: Block, t | x < v.NumBlocks() && t in v.Targets(x) ensures t.dest < v.NumBlocks() {
      if x == p {
        SameInsts(d1, v, p);
        assert t in d1.Targets(p);
      } else {
        SameInsts(d, v, x);
        assert t in d.Targets(x);
      }
    }
  }

  lemma VirtualFacts(d1: Dfg, p: Block, d: Dfg)
    requires p < d1.NumBlocks() && SplitsFrom(d1, p, d)
    ensures d1.NumBlocks() <= d.NumBlocks()
    ensures var v := Virtual(d1, p, d);
            && v.WellFormed() && v.NumBlocks() == d.NumBlocks()
            && (forall x: Block :: v.Insts(x) == if x == p then d1.Insts(p) else d.Insts(x))
            && (forall z: nat, y: nat :: z != p ==> (Edge(GraphOf(v), z, y) <==> Edge(GraphOf(d), z, y)))
            && (forall y: nat :: Edge(GraphOf(v), p, y) <==> Edge(GraphOf(d1), p, y))
  {
    hide SameReachable, SameDominance, SameRuns, AddedBlocksSilent, NothingElse, StaysValid, BranchesAttached, Virtual,
         Edge, SuccSet, OtherPred, NoCritical, OneSucc, GraphOf;
    var v := Virtual(d1, p, d);
    VirtualInsts(d1, p, d);
    VirtualWellFormed(d1, p, d, v);
    forall z: nat, y: nat | z != p ensures Edge(GraphOf(v), z, y) <==> Edge(GraphOf(d), z, y) {
      EdgeIff(v, z, y);
      EdgeIff(d, z, y);
      SameInsts(d, v, z);
    }
    forall y: nat ensures Edge(GraphOf(v), p, y) <==> Edge(GraphOf(d1), p, y) {
      EdgeIff(v, p, y);
      EdgeIff(d1, p, y);
      SameInsts(d1, v, p);
      SuccInRange(d1, p, y);
    }
  }

  /** A block with several successors ends in a conditional branch with two targets, or in a switch. */
  lemma ManySuccsTerminator(d: Dfg, p: Block, y: nat)
    requires d.WellFormed() && Edge(GraphOf(d), p, y) && OtherSucc(GraphOf(d), p, y)
    ensures TerminatorKept(d, p, d)
  {
    var z: nat :| z != y && Edge(GraphOf(d), p, z);
    EdgeIff(d, p, y);
    EdgeIff(d, p, z);
    BranchSuccs(d, p);
  }

  lemma VirtualSelf(d: Dfg, p: Block)
    requires p < d.NumBlocks()
    ensures Virtual(d, p, d) == d
  {
    assert d.blocks[p := d.blocks[p]] == d.blocks;
  }

  lemma NothingDone(d: Dfg, p: Block, data: CfgData, succs: seq<Block>)
    requires d.WellFormed() && Exact(d, data) && p < d.NumBlocks()
    requires forall y :: y in succs <==> y in Succs(data, p)
    requires forall i, j :: 0 <= i < j < |succs| ==> succs[i] != succs[j]
    ensures SuccsDone(d, d, p, succs, 0)
  {
    hide Exact, Edge, OtherPred, Succs, GraphOf;
    SuccsAreEdges(d, data, p);
    assert forall j: nat :: j < |succs| ==> succs[j] in succs;
    assert succs[0..] == succs;
  }

  lemma SplitBegin(d: Dfg, p: Block, data: CfgData, succs: seq<Block>)
    requires Attached(d) && Exact(d, data) && p < d.NumBlocks() && Reachable(GraphOf(d), p) && |Succs(data, p)| >= 2
    requires forall y :: y in succs <==> y in Succs(data, p)
    requires forall i, j :: 0 <= i < j < |succs| ==> succs[i] != succs[j]
    ensures SplitState(d, p, d, data, succs, 0)
  {
    hide BranchesAttached, Reachable, Exact, Edge, OtherSucc, OtherPred, Succs, SplitsFrom, TerminatorKept, GraphOf,
         Virtual, SuccsDone;
    SplitsNone(d, p);
    VirtualSelf(d, p);
    NothingDone(d, p, data, succs);
    SuccsAreEdges(d, data, p);
    ManySuccs(d, data, p);
    var y: Block :| y in Succs(data, p);
    ManySuccsTerminator(d, p, y);
  }

  /** An edge that the maintained graph shows to be critical, read off the function itself. */
  lemma SharedTarget(d1: Dfg, p: Block, d: Dfg, data: CfgData, succs: seq<Block>, k: nat)
    requires SplitState(d1, p, d, data, succs, k) && k < |succs|
    ensures Edge(GraphOf(d), p, succs[k]) && OtherSucc(GraphOf(d1), p, succs[k])
    ensures |Preds(data, succs[k])| >= 2 <==> OtherPred(GraphOf(d), p, succs[k])
  {
    hide BranchesAttached, Reachable, Exact, Edge, OtherSucc, Virtual, Preserves, GraphOf;
    VirtualFacts(d1, p, d);
    ManyPreds(Virtual(d1, p, d), data, p, succs[k]);
  }

  lemma SplitPart(d1: Dfg, p: Block, d: Dfg, data: CfgData, succs: seq<Block>, k: nat)
    requires SplitState(d1, p, d, data, succs, k) && k < |succs|
    ensures |d.Insts(p)| > 0 && (Terminator(d, p).CondBr? || Terminator(d, p).Switch?)
    ensures |Preds(data, succs[k])| >= 2 <==> OtherPred(GraphOf(d), p, succs[k])
    ensures Terminator(d, p).CondBr? ==> Splittable(d, p, succs[k])
    ensures Terminator(d, p).Switch? && OtherPred(GraphOf(d), p, succs[k]) ==> Blocked(d1, p)
  {
    hide SplitsFrom, SuccsDone, Reachable, Exact, Edge, OtherPred, OtherSucc, Virtual, GraphOf;
    var b := succs[k];
    SharedTarget(d1, p, d, data, succs, k);
    EdgeIff(d, p, b);
    BranchSuccs(d, p);
    if Terminator(d, p).Switch? && OtherPred(GraphOf(d), p, b) {
      assert Critical(GraphOf(d1), p, b);
    }
  }

  /** A successor without other predecessors needs nothing. */
  lemma SplitSkip(d1: Dfg, p: Block, d: Dfg, data: CfgData, succs: seq<Block>, k: nat)
    requires SplitState(d1, p, d, data, succs, k) && k < |succs| && !OtherPred(GraphOf(d), p, succs[k])
    ensures SplitState(d1, p, d, data, succs, k + 1)
  {
    hide Reachable, Exact, Edge, OtherSucc, OtherPred, Virtual, SplitsFrom, TerminatorKept;
    forall y: nat | Edge(GraphOf(d), p, y) && OtherPred(GraphOf(d), p, y) ensures y in succs[k + 1..] {
      var j :| 0 <= j < |succs[k..]| && succs[k..][j] == y;
      assert succs[k + 1..][j - 1] == y;
    }
  }

  /** After the edge to the next successor has been split. */
  lemma SplitSuccsDone(d1: Dfg, p: Block, d: Dfg, succs: seq<Block>, k: nat)
    requires p < d1.NumBlocks() && SplitsFrom(d1, p, d) && SuccsDone(d1, d, p, succs, k) && k < |succs|
    requires Splittable(d, p, succs[k])
    ensures SuccsDone(d1, SplitEdge(d, p, succs[k]), p, succs, k + 1)
  {
    hide BranchesAttached, SplitEdge, Splittable, Preserves, OtherPred;
    var b := succs[k];
    var d' := SplitEdge(d, p, b);
    var g, g' := GraphOf(d), GraphOf(d');
    var n := d.NumBlocks();
    SplitGraph(d, p, b);
    forall j: nat | k < j < |succs| ensures Edge(g', p, succs[j]) {
      assert Edge(g, p, succs[j]);
    }
    forall y: nat | Edge(g', p, y) && OtherPred(g', p, y) ensures y in succs[k + 1..] {
      if y == n {
        NewBlockOnePred(g, p, b, g');
        assert false;
      } else {
        assert Edge(g, p, y) && y != b;
        SplitOtherPred(g, p, b, g', p, y);
        var j :| 0 <= j < |succs[k..]| && succs[k..][j] == y;
        assert succs[k + 1..][j - 1] == y;
      }
    }
  }

  lemma NewBlockOnePred(g: Graph, p: nat, b: nat, g': Graph)
    requires SplitsGraph(g, p, b, g')
    ensures !OtherPred(g', p, |g.succs|)
  {
  }

  lemma StillTwoTargets(d1: Dfg, p: Block, d: Dfg, b: Block)
    requires Splittable(d, p, b) && d.WellFormed() && TerminatorKept(d1, p, d)
    ensures TerminatorKept(d1, p, SplitEdge(d, p, b))
  {
    hide SplitEdge;
    SplitShape(d, p, b);
    SplitTargets(d, p, b);
    var ts := d.Targets(p);
    assert ts[0] in ts && ts[1] in ts;
  }

  lemma SplitNext(d1: Dfg, p: Block, d: Dfg, data: CfgData, data': CfgData, succs: seq<Block>, k: nat)
    requires SplitState(d1, p, d, data, succs, k) && k < |succs| && Terminator(d, p).CondBr?
    requires Splittable(d, p, succs[k]) && OtherPred(GraphOf(d), p, succs[k])
    requires ReplacesEdgesOf(SplitEdge(d, p, succs[k]), d.NumBlocks(), data, data')
    ensures SplitState(d1, p, SplitEdge(d, p, succs[k]), data', succs, k + 1)
  {
    hide BranchesAttached, SplitEdge, Reachable, Exact, Edge, OtherSucc, OtherPred, Virtual, SplitsFrom, SuccsDone,
         ReplacesEdgesOf, TerminatorKept;
    var b := succs[k];
    var d' := SplitEdge(d, p, b);
    var n := d.NumBlocks();
    SplitShape(d, p, b);
    SplitsOneMore(d1, p, d, b);
    SplitSuccsDone(d1, p, d, succs, k);
    AttachedSplits(d1, p, d);
    StillTwoTargets(d1, p, d, b);
    VirtualFacts(d1, p, d);
    VirtualFacts(d1, p, d');
    var v, v' := Virtual(d1, p, d), Virtual(d1, p, d');
    SameRecompute(d', v', n, data, data');
    RecomputeIsExact(v, v', n, data, data');
  }

  lemma AttachedSplits(d1: Dfg, p: Block, d: Dfg)
    requires SplitsFrom(d1, p, d)
    ensures Attached(d1) && Attached(d) && Preserves(d1, d)
  {
  }

  /** Recomputing a block depends on the instructions of that block alone. */
  lemma SameRecompute(d: Dfg, v: Dfg, block: Block, data: CfgData, data': CfgData)
    requires ReplacesEdgesOf(d, block, data, data') && d.Insts(block) == v.Insts(block)
    ensures ReplacesEdgesOf(v, block, data, data')
  {
    assert SuccSet(d, block) == SuccSet(v, block);
    assert forall b: Block, m :: WithEdge(d, block, b, m) == WithEdge(v, block, b, m);
  }

  lemma SplitEnd(d1: Dfg, p: Block, d: Dfg, data: CfgData, data': CfgData, succs: seq<Block>)
    requires SplitState(d1, p, d, data, succs, |succs|) && ReplacesEdgesOf(d, p, data, data')
    ensures SplitsFrom(d1, p, d) && NoCritical(GraphOf(d), p) && Exact(d, data') && !Blocked(d1, p)
  {
    hide BranchesAttached, Reachable, Exact, Edge, OtherSucc, OtherPred, Virtual, ReplacesEdgesOf, Preserves;
    VirtualFacts(d1, p, d);
    RecomputeIsExact(Virtual(d1, p, d), d, p, data, data');
    assert succs[|succs|..] == [];
  }

  /** A block with at most one successor has no critical edge. */
  lemma FewSuccs(d: Dfg, p: Block, data: CfgData)
    requires Attached(d) && Exact(d, data) && |Succs(data, p)| < 2
    ensures SplitsFrom(d, p, d) && NoCritical(GraphOf(d), p) && !Blocked(d, p)
  {
    hide BranchesAttached, Exact, SplitsFrom, OtherSucc;
    SplitsNone(d, p);
    ManySuccs(d, data, p);
  }

  /** Of the edges from `p` to the blocks of `d1` exactly the critical ones are gone. */
  ghost predicate SplitsOf(d1: Dfg, p: Block, d: Dfg) {
    forall y: Block {:trigger Edge(GraphOf(d), p, y)} {:trigger Edge(GraphOf(d1), p, y)} :: y < d1.NumBlocks() ==>
      (Edge(GraphOf(d), p, y) <==> Edge(GraphOf(d1), p, y) && !Critical(GraphOf(d1), p, y))
  }

  lemma CriticalGone(d1: Dfg, p: Block, d: Dfg)
    requires SplitsFrom(d1, p, d) && NoCritical(GraphOf(d), p)
    requires p < d1.NumBlocks() && Reachable(GraphOf(d1), p)
    ensures SplitsOf(d1, p, d)
  {
    hide Reachable, SameDominance, SameRuns, AddedBlocksSilent, StaysValid, SameJoinsForks, SwitchesHaveArms, Edge,
         GraphOf, NoCritical, OnlyRedirects, Subdivides, BranchesAttached;
    forall y: Block | y < d1.NumBlocks()
      ensures Edge(GraphOf(d), p, y) <==> Edge(GraphOf(d1), p, y) && !Critical(GraphOf(d1), p, y)
    {
      ExactlyCritical(GraphOf(d1), GraphOf(d), p, y);
    }
  }

  /** Splits every critical edge leaving `p`, and no other. */
  method SplitSuccessors(f: Function, cfg: ControlFlowGraph, p: Block) returns (ok: bool)
    requires Attached(f.dfg) && Exact(f.dfg, cfg.data)
    requires p < f.dfg.NumBlocks() && Reachable(GraphOf(f.dfg), p)
    modifies f, cfg`data
    ensures ok <==> !Blocked(old(f.dfg), p)
    ensures ok ==> SplitsFrom(old(f.dfg), p, f.dfg) && NoCritical(GraphOf(f.dfg), p)
    ensures ok ==> SplitsOf(old(f.dfg), p, f.dfg)
    ensures ok ==> Exact(f.dfg, cfg.data)
  {
    hide *;
    ok := true;
    if cfg.NumSuccessors(p) < 2 {
      FewSuccessors(f.dfg, p, cfg);
      CriticalGone(f.dfg, p, f.dfg);
      return;
    }
    ghost var d1 := f.dfg;
    var succs := cfg.SuccIter(p);
    BeginSuccessors(d1, p, cfg, succs);
    var k := 0;
    while k < |succs|
      invariant 0 <= k <= |succs|
      invariant SplitState(d1, p, f.dfg, cfg.data, succs, k) && Mirrored(cfg.data)
    {
      SplitPart(d1, p, f.dfg, cfg.data, succs, k);
      CountsPreds(cfg, succs[k]);
      if cfg.NumPredecessors(succs[k]) < 2 {
        SplitSkip(d1, p, f.dfg, cfg.data, succs, k);
      } else {
        if Terminator(f.dfg, p).Switch? {
          return false;
        }
        ghost var d, data := f.dfg, cfg.data;
        var split := f.SplitCriticalEdge(p, succs[k]);
        cfg.RecomputeBlock(f.dfg, split);
        SplitNext(d1, p, d, data, cfg.data, succs, k);
      }
      k := k + 1;
    }
    ghost var data := cfg.data;
    cfg.RecomputeBlock(f.dfg, p);
    SplitEnd(d1, p, f.dfg, data, cfg.data, succs);
    CriticalGone(d1, p, f.dfg);
  }

  lemma CountsPreds(cfg: ControlFlowGraph, b: Block)
    ensures cfg.NumPredecessors(b) == |Preds(cfg.data, b)|
  {
  }

  lemma FewSuccessors(d: Dfg, p: Block, cfg: ControlFlowGraph)
    requires Attached(d) && Exact(d, cfg.data) && cfg.NumSuccessors(p) < 2
    ensures SplitsFrom(d, p, d) && NoCritical(GraphOf(d), p) && !Blocked(d, p)
  {
    hide BranchesAttached, Exact, SplitsFrom, OtherSucc, NoCritical, Blocked;
    FewSuccs(d, p, cfg.data);
  }

  lemma BeginSuccessors(d: Dfg, p: Block, cfg: ControlFlowGraph, succs: seq<Block>)
    requires Attached(d) && Exact(d, cfg.data) && p < d.NumBlocks() && Reachable(GraphOf(d), p)
    requires cfg.NumSuccessors(p) >= 2
    requires forall y :: y in succs <==> y in Succs(cfg.data, p)
    requires forall i, j :: 0 <= i < j < |succs| ==> succs[i] != succs[j]
    ensures SplitState(d, p, d, cfg.data, succs, 0) && Mirrored(cfg.data)
  {
    hide BranchesAttached, Exact, SplitState, Reachable;
    ExactIsMirrored(d, cfg.data);
    SplitBegin(d, p, cfg.data, succs);
  }

  // The pass

  ghost predicate VisitedFine(d0: Dfg, d: Dfg, x: Block) {
    x < d0.NumBlocks() && Reachable(GraphOf(d0), x) && NoCritical(GraphOf(d), x) && !Blocked(d0, x)
  }

  ghost predicate Queued(d0: Dfg, x: Block) {
    x < d0.NumBlocks() && Reachable(GraphOf(d0), x)
  }

  /** Not yet visited: neither its edges nor the sharing of their targets has changed. */
  ghost predicate Untouched(d0: Dfg, d: Dfg, x: Block) {
    && d.Insts(x) == d0.Insts(x)
    && forall y: Block {:trigger OtherPred(GraphOf(d), x, y)} :: y < d0.NumBlocks() ==>
         (OtherPred(GraphOf(d), x, y) <==> OtherPred(GraphOf(d0), x, y))
  }

  ghost predicate SuccsKnown(d0: Dfg, x: Block, visited: set<Block>, worklist: seq<Block>) {
    forall y: nat :: Edge(GraphOf(d0), x, y) ==> y in visited || y in worklist
  }

  ghost predicate WorklistInv(d0: Dfg, d: Dfg, data: CfgData, visited: set<Block>, worklist: seq<Block>) {
    && Attached(d0) && Attached(d) && Preserves(d0, d) && Exact(d, data)
    && (d0.entry in visited || d0.entry in worklist)
    && (forall x: Block {:trigger VisitedFine(d0, d, x)} :: x in visited ==> VisitedFine(d0, d, x))
    && (forall x: Block {:trigger SuccsKnown(d0, x, visited, worklist)} ::
          x in visited ==> SuccsKnown(d0, x, visited, worklist))
    && (forall x: Block {:trigger Queued(d0, x)} :: x in worklist ==> Queued(d0, x))
    && (forall x: Block {:trigger Untouched(d0, d, x)} :: x < d0.NumBlocks() && x !in visited ==> Untouched(d0, d, x))
    && (forall x: Block {:trigger OneSucc(GraphOf(d), x)} :: d0.NumBlocks() <= x ==> OneSucc(GraphOf(d), x))
  }

  lemma WorklistBegin(d: Dfg, data: CfgData)
    requires Attached(d) && Exact(d, data)
    ensures WorklistInv(d, d, data, {}, [d.entry])
  {
    hide Exact, BranchesAttached, Preserves, Reachable, Edge;
    PreservesRefl(d);
    EntryReachable(GraphOf(d));
    forall x: Block | d.NumBlocks() <= x ensures OneSucc(GraphOf(d), x) {
      NoBlockNoEdge(GraphOf(d), x);
    }
  }

  lemma NoBlockNoEdge(g: Graph, x: nat)
    requires |g.succs| <= x
    ensures OneSucc(g, x)
  {
  }

  /** The next block is untouched unless it has been visited. */
  lemma WorklistNext(d0: Dfg, d: Dfg, data: CfgData, visited: set<Block>, worklist: seq<Block>)
    requires WorklistInv(d0, d, data, visited, worklist) && |worklist| > 0
    ensures var p := worklist[0];
            && p < d0.NumBlocks() <= d.NumBlocks() && Attached(d) && Exact(d, data) && Reachable(GraphOf(d), p)
            && (p !in visited ==> Untouched(d0, d, p))
  {
    hide Exact, BranchesAttached, Reachable, Edge, Untouched, SuccsKnown, OneSucc, VisitedFine, SameDominance,
         SameRuns, AddedBlocksSilent, NothingElse,
         StaysValid;
    assert worklist[0] in worklist;
    assert Queued(d0, worklist[0]);
  }

  lemma WorklistSkip(d0: Dfg, d: Dfg, data: CfgData, visited: set<Block>, worklist: seq<Block>)
    requires WorklistInv(d0, d, data, visited, worklist) && |worklist| > 0 && worklist[0] in visited
    ensures WorklistInv(d0, d, data, visited, worklist[1..])
  {
    hide Exact, Attached, Preserves, Reachable, Edge, Untouched, OneSucc, VisitedFine, Queued;
    assert worklist == [worklist[0]] + worklist[1..];
    assert forall x: Block :: x in worklist[1..] ==> x in worklist;
    forall x: Block | x in visited ensures SuccsKnown(d0, x, visited, worklist[1..]) {
      assert SuccsKnown(d0, x, visited, worklist);
      forall y: nat | Edge(GraphOf(d0), x, y) ensures y in visited || y in worklist[1..] {
        assert y in visited || y in worklist;
      }
    }
  }

  lemma UntouchedEdges(d0: Dfg, d: Dfg, p: Block)
    requires d0.WellFormed() && d0.NumBlocks() <= d.NumBlocks() && p < d0.NumBlocks() && Untouched(d0, d, p)
    ensures forall y: nat :: Edge(GraphOf(d), p, y) <==> Edge(GraphOf(d0), p, y)
    ensures Blocked(d, p) <==> Blocked(d0, p)
  {
    forall y: nat ensures Edge(GraphOf(d), p, y) <==> Edge(GraphOf(d0), p, y) {
      hide OtherPred;
      EdgeIff(d, p, y);
      EdgeIff(d0, p, y);
      SameInsts(d0, d, p);
      SuccInRange(d0, p, y);
    }
    forall y: nat ensures Critical(GraphOf(d), p, y) <==> Critical(GraphOf(d0), p, y) {
      hide OtherPred, GraphOf;
      EdgeIff(d0, p, y);
    }
  }

  lemma WorklistVisited(d0: Dfg, d: Dfg, data: CfgData, visited: set<Block>, worklist: seq<Block>,
                    d': Dfg, data': CfgData, succs: seq<Block>)
    requires WorklistInv(d0, d, data, visited, worklist) && |worklist| > 0 && worklist[0] !in visited
    requires forall y :: y in succs <==> y in Succs(data, worklist[0])
    requires SplitsFrom(d, worklist[0], d') && NoCritical(GraphOf(d'), worklist[0]) && !Blocked(d, worklist[0])
    requires Exact(d', data')
    ensures WorklistInv(d0, d', data', visited + {worklist[0]}, worklist[1..] + succs)
  {
    hide Exact, Attached, Preserves, Reachable, Edge, Untouched, OneSucc, Blocked, OtherPred, NoCritical, SuccsKnown,
         Succs, GraphOf;
    var p := worklist[0];
    WorklistNext(d0, d, data, visited, worklist);
    AttachedParts(d0, d, d');
    UntouchedEdges(d0, d, p);
    PreservesTrans(d0, d, d');
    SuccsAreEdges(d, data, p);
    assert Queued(d0, p);
    WorklistQueued(d0, p, visited, worklist, succs);
    var visited' := visited + {p};
    forall x: Block | x in visited' ensures VisitedFine(d0, d', x) {
      if x != p {
        assert VisitedFine(d0, d, x);
        assert NoCritical(GraphOf(d), x);
      }
    }
    forall x: Block | x < d0.NumBlocks() && x !in visited' ensures Untouched(d0, d', x) {
      assert Untouched(d0, d, x);
      StillUntouched(d0, d, p, d', x);
    }
    forall x: Block | d0.NumBlocks() <= x ensures OneSucc(GraphOf(d'), x) {
      StillOneSucc(d, p, d', x);
    }
  }

  lemma WorklistQueued(d0: Dfg, p: Block, visited: set<Block>, worklist: seq<Block>, succs: seq<Block>)
    requires |worklist| > 0 && worklist[0] == p
    requires forall x: Block {:trigger SuccsKnown(d0, x, visited, worklist)} ::
        x in visited ==> SuccsKnown(d0, x, visited, worklist)
    requires forall x: Block {:trigger Queued(d0, x)} :: x in worklist ==> Queued(d0, x)
    requires forall y: Block :: y in succs <==> Edge(GraphOf(d0), p, y)
    ensures forall x: Block {:trigger SuccsKnown(d0, x, visited + {p}, worklist[1..] + succs)} ::
        x in visited + {p} ==> SuccsKnown(d0, x, visited + {p}, worklist[1..] + succs)
    ensures forall x: Block {:trigger Queued(d0, x)} :: x in worklist[1..] + succs ==> Queued(d0, x)
    ensures forall x: Block :: x in worklist ==> x == p || x in worklist[1..] + succs
  {
    hide Edge, GraphOf, SuccsKnown, Queued;
    assert worklist == [p] + worklist[1..];
    assert Queued(d0, p);
    forall x: Block | x in visited + {p}
      ensures SuccsKnown(d0, x, visited + {p}, worklist[1..] + succs)
    {
      KnownSuccs(d0, p, x, visited, worklist, succs);
    }
    forall x: Block | x in worklist[1..] + succs ensures Queued(d0, x) {
      if x in worklist {
        assert Queued(d0, x);
      } else {
        QueuedSucc(d0, p, x);
      }
    }
  }

  lemma AttachedParts(d0: Dfg, d: Dfg, d': Dfg)
    requires Attached(d0) && Attached(d) && Preserves(d0, d) && Preserves(d, d')
    ensures d0.WellFormed() && d.WellFormed() && d0.NumBlocks() <= d.NumBlocks() <= d'.NumBlocks()
  {
  }

  lemma KnownSuccs(d0: Dfg, p: Block, x: Block, visited: set<Block>, worklist: seq<Block>, succs: seq<Block>)
    requires |worklist| > 0 && worklist[0] == p
    requires if x == p then forall y: Block ::
        y in succs <==> Edge(GraphOf(d0), p, y) else SuccsKnown(d0, x, visited, worklist)
    ensures SuccsKnown(d0, x, visited + {p}, worklist[1..] + succs)
  {
    hide Edge;
    assert worklist == [p] + worklist[1..];
  }

  lemma QueuedSucc(d0: Dfg, p: Block, x: Block)
    requires Queued(d0, p) && Edge(GraphOf(d0), p, x)
    ensures Queued(d0, x)
  {
    ReachableStep(GraphOf(d0), p, x);
  }

  lemma StillUntouched(d0: Dfg, d: Dfg, p: Block, d': Dfg, x: Block)
    requires Untouched(d0, d, x) && SplitsFrom(d, p, d') && x < d0.NumBlocks() <= d.NumBlocks() && x != p
    ensures Untouched(d0, d', x)
  {
    hide OtherPred, Preserves, Attached;
    forall y: Block | y < d0.NumBlocks() ensures OtherPred(GraphOf(d'), x, y) <==> OtherPred(GraphOf(d0), x, y) {
      assert OtherPred(GraphOf(d), x, y) <==> OtherPred(GraphOf(d0), x, y);
    }
  }

  lemma StillOneSucc(d: Dfg, p: Block, d': Dfg, x: Block)
    requires SplitsFrom(d, p, d') && x != p && OneSucc(GraphOf(d), x)
    ensures OneSucc(GraphOf(d'), x)
  {
    hide OtherPred, NoCritical, BranchesAttached, SameDominance, SameRuns, AddedBlocksSilent, NothingElse, StaysValid;
    if x < d.NumBlocks() {
      forall y: nat | Edge(GraphOf(d'), x, y) ensures Edge(GraphOf(d), x, y) {
        EdgeIff(d, x, y);
        EdgeIff(d', x, y);
        SameInsts(d, d', x);
        SuccInRange(d, x, y);
      }
    } else {
      assert OneSucc(GraphOf(d'), x);
    }
  }

  ghost predicate NoCriticalEdges(d: Dfg) {
    forall p: Block {:trigger NoCritical(GraphOf(d), p)} :: Reachable(GraphOf(d), p) ==> NoCritical(GraphOf(d), p)
  }

  ghost predicate NothingBlocked(d: Dfg) {
    forall p: Block {:trigger Blocked(d, p)} :: Reachable(GraphOf(d), p) ==> !Blocked(d, p)
  }

  lemma {:induction false} AllVisited(d0: Dfg, d: Dfg, data: CfgData, visited: set<Block>, q: seq<nat>)
    requires WorklistInv(d0, d, data, visited, []) && IsPath(GraphOf(d0), q) && q[0] == d0.entry
    ensures Last(q) in visited
    decreases |q|
  {
    hide Exact, Attached, Preserves, Reachable, Edge, Untouched, OneSucc, VisitedFine;
    if |q| > 1 {
      PathSnoc(GraphOf(d0), q);
      AllVisited(d0, d, data, visited, Front(q));
      assert SuccsKnown(d0, Last(Front(q)), visited, []);
    }
  }

  lemma WorklistEnd(d0: Dfg, d: Dfg, data: CfgData, visited: set<Block>)
    requires WorklistInv(d0, d, data, visited, [])
    ensures Preserves(d0, d) && Attached(d) && Exact(d, data) && NoCriticalEdges(d) && NothingBlocked(d0)
  {
    hide Exact, Attached, Edge, Untouched, OneSucc, Blocked, NoCritical, OtherPred, SameDominance, SameRuns,
         AddedBlocksSilent, NothingElse, StaysValid,
         IsPath;
    forall p: Block | Reachable(GraphOf(d0), p) ensures VisitedFine(d0, d, p) {
      var q :| PathTo(GraphOf(d0), d0.entry, q, p);
      AllVisited(d0, d, data, visited, q);
    }
    forall p: Block | Reachable(GraphOf(d), p) ensures NoCritical(GraphOf(d), p) {
      if p < d0.NumBlocks() {
        assert VisitedFine(d0, d, p);
      } else {
        assert OneSucc(GraphOf(d), p);
        OneSuccNoCritical(GraphOf(d), p);
      }
    }
    forall p: Block | Reachable(GraphOf(d0), p) ensures !Blocked(d0, p) {
      assert VisitedFine(d0, d, p);
    }
  }

  /** Of the original edges exactly those are gone that are critical and can be taken; each of them leads
      through an added block of its own, and every added block stands for one of them. */
  ghost predicate SplitsExactly(d0: Dfg, d: Dfg) {
    var g0, g := GraphOf(d0), GraphOf(d);
    && (forall x: Block, y: Block {:trigger Edge(g, x, y)} {:trigger Edge(g0, x, y)} ::
          x < d0.NumBlocks() && y < d0.NumBlocks() ==> (Edge(g, x, y) <==> Edge(g0, x, y) && !CanTake(g0, x, y)))
    && (forall x: Block, y: Block {:trigger CanTake(g0, x, y)} :: CanTake(g0, x, y) ==> IsReplaced(g0, g, x, y))
    && (forall n: Block {:trigger ReplacesSome(g0, g, n)} ::
          d0.NumBlocks() <= n < d.NumBlocks() ==> ReplacesSome(g0, g, n))
    && (forall n: Block, m: Block, x: Block, y: Block {:trigger Replaces(g0, g, n, x, y), Replaces(g0, g, m, x, y)} ::
          Replaces(g0, g, n, x, y) && Replaces(g0, g, m, x, y) ==> n == m)
  }

  lemma SplitExactly(d0: Dfg, d: Dfg)
    requires Preserves(d0, d) && NoCriticalEdges(d) && d0.WellFormed()
    ensures SplitsExactly(d0, d)
    ensures NoCriticalEdges(d0) ==> d == d0
  {
    hide Reachable, SameDominance, SameRuns, AddedBlocksSilent, StaysValid, SameJoinsForks, SwitchesHaveArms, Edge,
         GraphOf, Replaces, CanTake, NoCritical, OnlyRedirects;
    var g0, g := GraphOf(d0), GraphOf(d);
    forall x: Block, y: Block | x < d0.NumBlocks() && y < d0.NumBlocks()
      ensures Edge(g, x, y) <==> Edge(g0, x, y) && !CanTake(g0, x, y)
    {
      assert Reachable(g, x) ==> NoCritical(g, x);
      ExactlyCritical(g0, g, x, y);
    }
    forall x: Block, y: Block | CanTake(g0, x, y) ensures IsReplaced(g0, g, x, y) {
      TakenIsEdge(g0, x, y);
      EdgeInRange(g0, x, y);
    }
    if NoCriticalEdges(d0) {
      NothingToSplit(d0, d);
    }
  }

  lemma EdgeInRange(g: Graph, x: nat, y: nat)
    requires Edge(g, x, y)
    ensures x < |g.succs| && y < |g.succs|
  {
  }

  lemma NoneCanBeTaken(d: Dfg, x: Block, y: Block)
    requires NoCriticalEdges(d)
    ensures !CanTake(GraphOf(d), x, y)
  {
    if Reachable(GraphOf(d), x) {
      assert NoCritical(GraphOf(d), x);
    }
  }

  /** Without a critical edge that control can take, the function stays as it is. */
  lemma NothingToSplit(d0: Dfg, d: Dfg)
    requires NoCriticalEdges(d0) && NothingElse(d0, d) && d0.NumBlocks() <= d.NumBlocks()
    requires d.entry == d0.entry && d.values == d0.values && d.types == d0.types
    ensures d == d0
  {
    hide NoCriticalEdges, CanTake, GraphOf, Between, Edge;
    var g0, g := GraphOf(d0), GraphOf(d);
    forall n: Block, x: Block, y: Block ensures !Replaces(g0, g, n, x, y) {
      NoneCanBeTaken(d0, x, y);
    }
    if d0.NumBlocks() < d.NumBlocks() {
      OldReplacement(g0, g, d0.NumBlocks());
    }
    forall x: Block | x < d0.NumBlocks() ensures d.Insts(x) == d0.Insts(x) && d.Params(x) == d0.Params(x) {
      assert OnlyRedirects(d0, d, x);
      assert KeepsEdges(g0, g, x);
    }
    SameFunction(d0, d);
  }

  lemma OneSuccNoCritical(g: Graph, p: nat)
    requires OneSucc(g, p)
    ensures NoCritical(g, p)
  {
  }

  lemma WorklistFails(d0: Dfg, d: Dfg, data: CfgData, visited: set<Block>, worklist: seq<Block>)
    requires WorklistInv(d0, d, data, visited, worklist) && |worklist| > 0 && worklist[0] !in visited
    requires Blocked(d, worklist[0])
    ensures !NothingBlocked(d0)
  {
    hide Exact, BranchesAttached, Preserves, Reachable, Edge, Untouched, OneSucc, Blocked, OtherPred, NoCritical,
         SuccsKnown;
    WorklistNext(d0, d, data, visited, worklist);
    UntouchedEdges(d0, d, worklist[0]);
    assert Queued(d0, worklist[0]);
  }

  ghost function BlocksBelow(n: nat): (bs: set<Block>)
    ensures forall b: Block :: b in bs <==> b < n
  {
    if n == 0 then {} else BlocksBelow(n - 1) + {n - 1}
  }

  lemma CriticalIfBlocked(d: Dfg)
    requires !NothingBlocked(d)
    ensures !NoCriticalEdges(d)
  {
    hide Reachable, NoCritical, EndsInSwitch;
    var p: Block :| Reachable(GraphOf(d), p) && Blocked(d, p);
    assert !NoCritical(GraphOf(d), p);
  }

  lemma AttachedIsWellFormed(d: Dfg)
    requires Attached(d)
    ensures d.WellFormed()
  {
  }

  /** Splits the critical edges that control can take, and does nothing else; gives up exactly when one of
      them leaves a switch. */
  method Run(f: Function, cfg: ControlFlowGraph) returns (ok: bool)
    requires Attached(f.dfg) && Exact(f.dfg, cfg.data)
    modifies f, cfg`data
    ensures ok <==> NothingBlocked(old(f.dfg))
    ensures ok ==> Preserves(old(f.dfg), f.dfg) && Attached(f.dfg)
    ensures ok ==> NoCriticalEdges(f.dfg) && Exact(f.dfg, cfg.data)
    ensures ok ==> SplitsExactly(old(f.dfg), f.dfg)
    ensures NoCriticalEdges(old(f.dfg)) ==> ok && f.dfg == old(f.dfg)
    ensures ok ==> (NoneJoinsAndForks(f.dfg) <==> NoneJoinsAndForks(old(f.dfg)))
  {
    hide *;
    ghost var d0 := f.dfg;
    ghost var all := BlocksBelow(d0.NumBlocks());
    var visited: set<Block> := {};
    var worklist: seq<Block> := [f.dfg.entry];
    WorklistBegin(d0, cfg.data);
    while worklist != []
      invariant WorklistInv(d0, f.dfg, cfg.data, visited, worklist)
      decreases all - visited, |worklist|
    {
      WorklistNext(d0, f.dfg, cfg.data, visited, worklist);
      var p := worklist[0];
      if p in visited {
        WorklistSkip(d0, f.dfg, cfg.data, visited, worklist);
        worklist := worklist[1..];
      } else {
        ghost var d, data := f.dfg, cfg.data;
        var succs := cfg.SuccIter(p);
        var clean := SplitSuccessors(f, cfg, p);
        if !clean {
          WorklistFails(d0, d, data, visited, worklist);
          CriticalIfBlocked(d0);
          return false;
        }
        WorklistVisited(d0, d, data, visited, worklist, f.dfg, cfg.data, succs);
        visited := visited + {p};
        worklist := worklist[1..] + succs;
      }
    }
    WorklistEnd(d0, f.dfg, cfg.data, visited);
    PromiseIff(d0, f.dfg);
    AttachedIsWellFormed(d0);
    SplitExactly(d0, f.dfg);
    ok := true;
  }

  /** After the pass, a valid function returns what it returned before, and still runs safely. */
  lemma SplitRunsSafely(d0: Dfg, d: Dfg, c: Config)
    requires Consistent(d0) && ValidFunction(d0) && Preserves(d0, d)
    ensures c.Returned? ==> (Reaches(d, c) <==> Reaches(d0, c))
    ensures c.At? && Reaches(d, c) ==> SafeAt(d, c)
  {
    hide Consistent, ValidFunction, Reaches, SafeAt;
    if Reaches(d, c) {
      ValidRunsAreSafe(d, c);
    }
  }

  // What the documentation promises

  /** No block that control reaches has both several predecessors and several successors. */
  ghost predicate NoneJoinsAndForks(d: Dfg) {
    forall x: Block {:trigger Joins(GraphOf(d), x)} ::
      Reachable(GraphOf(d), x) ==> !(Joins(GraphOf(d), x) && Forks(GraphOf(d), x))
  }

  /** The promise holds after splitting exactly if it held before. */
  lemma PromiseIff(d0: Dfg, d: Dfg)
    requires Preserves(d0, d)
    ensures NoneJoinsAndForks(d) <==> NoneJoinsAndForks(d0)
  {
    hide Reachable, Joins, Forks, GraphOf, SameDominance, SameRuns, AddedBlocksSilent, NothingElse, StaysValid,
         SwitchesHaveArms;
    if NoneJoinsAndForks(d) {
      forall x: Block | Reachable(GraphOf(d0), x) ensures !(Joins(GraphOf(d0), x) && Forks(GraphOf(d0), x)) {
        ReachedBlock(d0, x);
        assert Reachable(GraphOf(d), x) && (Joins(GraphOf(d), x) <==> Joins(GraphOf(d0), x));
      }
    }
    if NoneJoinsAndForks(d0) {
      forall x: Block | Reachable(GraphOf(d), x) ensures !(Joins(GraphOf(d), x) && Forks(GraphOf(d), x)) {
        if x < d0.NumBlocks() {
          assert Reachable(GraphOf(d0), x) && !(Joins(GraphOf(d0), x) && Forks(GraphOf(d0), x));
        }
      }
    }
  }

  lemma ReachedBlock(d: Dfg, x: Block)
    requires Reachable(GraphOf(d), x)
    ensures x < d.NumBlocks()
  {
    ReachableInRange(GraphOf(d), x);
  }

  /** The function on which the pass is tried out in the repository: a loop whose header both joins and
      forks. */
  function LoopExample(): Dfg {
    Dfg(0,
        [BlockData([0, 1], [InstNode(Op(0, [0]), [7]), InstNode(Br(JumpTable(1, [7, 1])), [])]),
         BlockData([2, 3], [InstNode(Op(1, [2]), [8]),
                            InstNode(CondBr(8, JumpTable(3, [0]), JumpTable(2, [2, 3])), [])]),
         BlockData([4, 5], [InstNode(Op(2, [4, 5]), [9]), InstNode(Op(3, [5]), [10]), InstNode(Op(1, [10]), [11]),
                            InstNode(CondBr(11, JumpTable(3, [9]), JumpTable(1, [9, 10])), [])]),
         BlockData([6], [InstNode(Op(4, [6]), [12]), InstNode(Ret([12]), [])])],
        map[], map[])
  }

  /** Its header still joins and forks after any splitting, so the promise fails there. */
  lemma PromiseFails(d: Dfg)
    requires Preserves(LoopExample(), d)
    ensures !NoneJoinsAndForks(d)
  {
    var d0 := LoopExample();
    var g := GraphOf(d0);
    ExampleEdges();
    hide LoopExample;
    EntryReachable(g);
    ReachableStep(g, 0, 1);
    assert TwoPreds(g, 1, 0, 2) && TwoSuccs(g, 1, 2, 3);
    assert Joins(g, 1) && Forks(g, 1);
    hide Preserves;
    PromiseIff(d0, d);
  }

  /** The pass accepts it. */
  lemma ExampleIsSplit()
    ensures Attached(LoopExample()) && NothingBlocked(LoopExample())
  {
    var d := LoopExample();
    forall p: Block ensures !EndsInSwitch(d, p) {
      assert p < 4 || p >= d.NumBlocks();
    }
    forall i: Inst, t | BranchesTo(d, i, t) ensures t.dest < 4 {
      assert i.block < 4;
    }
    forall b: Block, t | b < 4 && t in d.Targets(b) ensures t.dest < 4 {
      assert BranchesTo(d, Inst(b, |d.Insts(b)| - 1), t);
    }
  }

  lemma ExampleEdges()
    ensures var g := GraphOf(LoopExample());
            && g.entry == 0 && |g.succs| == 4
            && Edge(g, 0, 1) && Edge(g, 1, 2) && Edge(g, 1, 3) && Edge(g, 2, 1)
  {
    var d := LoopExample();
    BranchSuccs(d, 0);
    BranchSuccs(d, 1);
    BranchSuccs(d, 2);
    EdgeIff(d, 0, 1);
    EdgeIff(d, 1, 2);
    EdgeIff(d, 1, 3);
    EdgeIff(d, 2, 1);
  }

  // What liveness asserts

  /** Each target of the branch has a single predecessor. */
  ghost predicate SinglePreds(d: Dfg, data: CfgData, p: Block) {
    forall t :: t in d.Targets(p) ==> |Preds(data, t.dest)| == 1
  }

  /** The branch has two targets that differ. */
  predicate TwoTargets(d: Dfg, p: Block) {
    exists i, j :: 0 <= i < j < |d.Targets(p)| && d.Targets(p)[i].dest != d.Targets(p)[j].dest
  }

  /** No other block branches to a target of `p`. */
  ghost predicate OnlySource(d: Dfg, p: Block) {
    forall q: Block, t {:trigger t in d.Targets(p), SuccSet(d, q)} ::
      q < d.NumBlocks() && q != p && t in d.Targets(p) ==> t.dest !in SuccSet(d, q)
  }

  /** Once no critical edge is left, the assertion of liveness holds exactly at the branches with two
      different targets, and at those whose only target no other block branches to. */
  lemma SplitEnablesLiveness(d: Dfg, data: CfgData, p: Block)
    requires d.WellFormed() && Exact(d, data) && NoCriticalEdges(d) && Reachable(GraphOf(d), p)
    ensures SinglePreds(d, data, p) <==> TwoTargets(d, p) || OnlySource(d, p)
  {
    hide Reachable, Exact, GraphOf;
    assert NoCritical(GraphOf(d), p);
    ReachableInRange(GraphOf(d), p);
    forall t | t in d.Targets(p)
      ensures |Preds(data, t.dest)| == 1 <==> !OtherPred(GraphOf(d), p, t.dest)
      ensures TwoTargets(d, p) ==> !OtherPred(GraphOf(d), p, t.dest)
      ensures OtherPred(GraphOf(d), p, t.dest) <==> HasOtherSource(d, p, t)
    {
      TargetIsEdge(d, p, t);
      ManyPreds(d, data, p, t.dest);
      SomePred(d, data, p, t.dest);
      OtherSourceIff(d, p, t);
      if TwoTargets(d, p) {
        OtherTarget(d, p, t);
        assert !Critical(GraphOf(d), p, t.dest);
      }
    }
    hide OtherPred, Edge;
    SourcesIff(d, p);
    if SinglePreds(d, data, p) && !TwoTargets(d, p) {
      assert forall t :: t in d.Targets(p) ==> !HasOtherSource(d, p, t);
    }
  }

  ghost predicate HasOtherSource(d: Dfg, p: Block, t: JumpTable) {
    exists q: Block :: q < d.NumBlocks() && q != p && t.dest in SuccSet(d, q)
  }

  lemma SourcesIff(d: Dfg, p: Block)
    ensures OnlySource(d, p) <==> forall t :: t in d.Targets(p) ==> !HasOtherSource(d, p, t)
  {
  }

  lemma TargetIsEdge(d: Dfg, p: Block, t: JumpTable)
    requires d.WellFormed() && p < d.NumBlocks() && t in d.Targets(p)
    ensures Edge(GraphOf(d), p, t.dest) && t.dest < d.NumBlocks()
  {
    EdgeIff(d, p, t.dest);
  }

  lemma OtherSourceIff(d: Dfg, p: Block, t: JumpTable)
    requires d.WellFormed() && t.dest < d.NumBlocks()
    ensures OtherPred(GraphOf(d), p, t.dest) <==> HasOtherSource(d, p, t)
  {
    if z: nat :| z != p && Edge(GraphOf(d), z, t.dest) {
      EdgeIff(d, z, t.dest);
    }
    if q: Block :| q < d.NumBlocks() && q != p && t.dest in SuccSet(d, q) {
      EdgeIff(d, q, t.dest);
    }
  }

  lemma OtherTarget(d: Dfg, p: Block, t: JumpTable)
    requires d.WellFormed() && p < d.NumBlocks() && t in d.Targets(p) && TwoTargets(d, p)
    ensures OtherSucc(GraphOf(d), p, t.dest)
  {
    var ts := d.Targets(p);
    var i, j :| 0 <= i < j < |ts| && ts[i].dest != ts[j].dest;
    var u := if ts[i].dest == t.dest then ts[j] else ts[i];
    assert u in ts;
    TargetIsEdge(d, p, u);
  }
}
