/** Splitting one edge of a function: what becomes of its paths, its dominance, its runs and its
    validity. */
module SplitTheory {
  import opened IR
  import opened Graphs
  import opened ControlFlow
  import opened Dominance
  import opened Semantics
  import opened Validation

  // Graphs

  /** `g'` is `g` with a new last vertex in the middle of the edge from `p` to `b`. */
  ghost predicate SplitsGraph(g: Graph, p: nat, b: nat, g': Graph) {
    && g'.entry == g.entry && |g'.succs| == |g.succs| + 1 && Edge(g, p, b)
    && forall x: nat, y: nat {:trigger Edge(g', x, y)} {:trigger Edge(g, x, y)} ::
         Edge(g', x, y) <==> if x == |g.succs| then y == b
                             else if x == p then y == |g.succs| || (y != b && Edge(g, p, y))
                             else Edge(g, x, y)
  }

  /** The two paths have the same ends and meet the same vertices of the original graph. */
  ghost predicate SamePath(n: nat, q: seq<nat>, q': seq<nat>)
    requires |q| > 0 && |q'| > 0
  {
    && q'[0] == q[0] && Last(q') == Last(q)
    && (forall x: nat {:trigger x in q} {:trigger x in q'} :: x < n ==> (x in q <==> x in q'))
  }

  lemma {:induction false} PathSnoc(g: Graph, q: seq<nat>)
    requires IsPath(g, q) && |q| > 1
    ensures |Front(q)| > 0 && IsPath(g, Front(q)) && Edge(g, Last(Front(q)), Last(q)) && Front(q)[0] == q[0]
    ensures q == Front(q) + [Last(q)]
  {
  }

  lemma SamePathSnoc(n: nat, q: seq<nat>, q': seq<nat>, v: nat)
    requires |q| > 0 && |q'| > 0 && SamePath(n, q, q')
    ensures SamePath(n, q + [v], q' + [v])
    ensures v < n ==> SamePath(n, q + [v], q' + [n] + [v])
  {
    assert Last(q' + [n] + [v]) == v;
  }

  /** Going through the new vertex wherever a path takes the split edge. */
  lemma {:induction false} InsertSplit(g: Graph, p: nat, b: nat, g': Graph, q: seq<nat>) returns (q': seq<nat>)
    requires SplitsGraph(g, p, b, g') && IsPath(g, q)
    ensures IsPath(g', q') && SamePath(|g.succs|, q, q')
    decreases |q|
  {
    if |q| == 1 {
      q' := q;
    } else {
      var n := |g.succs|;
      PathSnoc(g, q);
      var r := InsertSplit(g, p, b, g', Front(q));
      SamePathSnoc(n, Front(q), r, Last(q));
      if Last(r) == p && Last(q) == b {
        assert Edge(g', p, n) && Edge(g', n, b);
        PathExtend(g', r, n);
        PathExtend(g', r + [n], b);
        q' := r + [n] + [b];
      } else {
        assert Edge(g', Last(r), Last(q));
        PathExtend(g', r, Last(q));
        q' := r + [Last(q)];
      }
    }
  }

  /** Leaving the new vertex out of a path. */
  lemma {:induction false} EraseSplit(g: Graph, p: nat, b: nat, g': Graph, q': seq<nat>) returns (q: seq<nat>)
    requires SplitsGraph(g, p, b, g') && IsPath(g', q') && q'[0] < |g.succs| && Last(q') < |g.succs|
    ensures IsPath(g, q) && SamePath(|g.succs|, q, q')
    decreases |q'|
  {
    if |q'| == 1 {
      q := q';
    } else {
      var n := |g.succs|;
      PathSnoc(g', q');
      var f, v := Front(q'), Last(q');
      if Last(f) == n {
        assert Edge(g', n, v) && v == b;
        PathSnoc(g', f);
        assert Edge(g', Last(Front(f)), n);
        assert Last(Front(f)) == p;
        var r := EraseSplit(g, p, b, g', Front(f));
        SamePathSnoc(n, r, Front(f), v);
        PathExtend(g, r, v);
        q := r + [v];
      } else {
        PathVertex(g', f, |f| - 1);
        var r := EraseSplit(g, p, b, g', f);
        assert Edge(g', Last(f), v) && Edge(g, Last(r), v);
        SamePathSnoc(n, r, f, v);
        PathExtend(g, r, v);
        q := r + [v];
      }
    }
  }

  lemma SplitReachable(g: Graph, p: nat, b: nat, g': Graph, x: nat)
    requires SplitsGraph(g, p, b, g') && g.entry < |g.succs| && x < |g.succs|
    ensures Reachable(g', x) <==> Reachable(g, x)
  {
    if Reachable(g, x) {
      var q :| PathTo(g, g.entry, q, x);
      var q' := InsertSplit(g, p, b, g', q);
      assert PathTo(g', g'.entry, q', x);
    }
    if Reachable(g', x) {
      var q' :| PathTo(g', g'.entry, q', x);
      var q := EraseSplit(g, p, b, g', q');
      assert PathTo(g, g.entry, q, x);
    }
  }

  /** Dominance between vertices of the original graph is what it was. */
  lemma SplitDom(g: Graph, p: nat, b: nat, g': Graph, a: nat, c: nat)
    requires SplitsGraph(g, p, b, g') && g.entry < |g.succs| && a < |g.succs| && c < |g.succs|
    ensures Dom(g', a, c) <==> Dom(g, a, c)
  {
    if Dom(g, a, c) {
      forall q' | PathTo(g', g'.entry, q', c) ensures a in q' {
        var q := EraseSplit(g, p, b, g', q');
        assert PathTo(g, g.entry, q, c);
      }
    }
    if Dom(g', a, c) {
      forall q | PathTo(g, g.entry, q, c) ensures a in q {
        var q' := InsertSplit(g, p, b, g', q);
        assert PathTo(g', g'.entry, q', c);
      }
    }
  }

  /** The new vertex is dominated by what dominates the source of its edge, and by nothing else but itself. */
  lemma NewVertexDom(g: Graph, p: nat, b: nat, g': Graph, a: nat)
    requires SplitsGraph(g, p, b, g') && g.entry < |g.succs| && a < |g.succs|
    ensures Dom(g', a, |g.succs|) <==> Dom(g, a, p)
    ensures Reachable(g', |g.succs|) <==> Reachable(g, p)
  {
    var n := |g.succs|;
    SplitDom(g, p, b, g', a, p);
    SplitReachable(g, p, b, g', p);
    assert Edge(g', p, n);
    if Dom(g', a, n) {
      DomPred(g', a, p, n);
    }
    if Dom(g', a, p) {
      forall f: nat | Edge(g', f, n) ensures f == p {
        assert Edge(g, f, n) || f == p || f == n;
      }
      DomFromPreds(g', a, n);
    }
    if Reachable(g', p) {
      ReachableStep(g', p, n);
    }
    if Reachable(g', n) {
      var q': seq<nat> :| PathTo(g', g'.entry, q', n);
      PathSnoc(g', q');
      assert Last(Front(q')) == p;
      assert PathTo(g', g'.entry, Front(q'), p);
    }
  }

  // Joins and forks

  predicate TwoPreds(g: Graph, x: nat, y: nat, z: nat) {
    y != z && Edge(g, y, x) && Edge(g, z, x)
  }

  predicate TwoSuccs(g: Graph, x: nat, y: nat, z: nat) {
    y != z && Edge(g, x, y) && Edge(g, x, z)
  }

  /** Several predecessors. */
  ghost predicate Joins(g: Graph, x: nat) {
    exists y: nat, z: nat :: TwoPreds(g, x, y, z)
  }

  /** Several successors. */
  ghost predicate Forks(g: Graph, x: nat) {
    exists y: nat, z: nat :: TwoSuccs(g, x, y, z)
  }

  /** The vertex that takes the place of `y` as a source of edges to `x`. */
  function SplitPred(g: Graph, p: nat, b: nat, x: nat, y: nat): nat {
    if x == b && y == p then |g.succs| else y
  }

  /** A vertex of the original graph joins and forks after the split exactly if it did before. */
  lemma SplitJoins(g: Graph, p: nat, b: nat, g': Graph, x: nat)
    requires SplitsGraph(g, p, b, g') && x < |g.succs|
    ensures Joins(g', x) <==> Joins(g, x)
  {
    var n := |g.succs|;
    if y: nat, z: nat :| TwoPreds(g, x, y, z) {
      assert TwoPreds(g', x, SplitPred(g, p, b, x, y), SplitPred(g, p, b, x, z));
    }
    if y: nat, z: nat :| TwoPreds(g', x, y, z) {
      assert TwoPreds(g, x, if y == n then p else y, if z == n then p else z);
    }
  }

  lemma SplitForks(g: Graph, p: nat, b: nat, g': Graph, x: nat)
    requires SplitsGraph(g, p, b, g') && x < |g.succs|
    ensures Forks(g', x) <==> Forks(g, x)
  {
    var n := |g.succs|;
    if y: nat, z: nat :| TwoSuccs(g, x, y, z) {
      assert TwoSuccs(g', x, if x == p && y == b then n else y, if x == p && z == b then n else z);
    }
    if y: nat, z: nat :| TwoSuccs(g', x, y, z) {
      assert TwoSuccs(g, x, if y == n then b else y, if z == n then b else z);
    }
  }

  lemma NewVertexPlain(g: Graph, p: nat, b: nat, g': Graph)
    requires SplitsGraph(g, p, b, g')
    ensures !Joins(g', |g.succs|) && !Forks(g', |g.succs|)
  {
  }

  // Functions

  /** A conditional branch with two different targets, one of them `b`, ends block `p`. */
  predicate Splittable(dfg: Dfg, p: Block, b: Block) {
    && p < dfg.NumBlocks() && b < dfg.NumBlocks() && |dfg.Insts(p)| > 0
    && var last := dfg.Insts(p)[|dfg.Insts(p)| - 1].data;
    last.CondBr? && last.thenDest.dest != last.elseDest.dest && (last.thenDest.dest == b || last.elseDest.dest == b)
  }

  /** The edge to `b` now goes to `split`, and passes nothing. */
  function Redirect(data: Instruction, b: Block, split: Block): Instruction
    requires data.CondBr?
  {
    if data.thenDest.dest == b then data.(thenDest := JumpTable(split, []))
    else data.(elseDest := JumpTable(split, []))
  }

  function ArgsTo(data: Instruction, b: Block): seq<Value>
    requires data.CondBr?
  {
    if data.thenDest.dest == b then data.thenDest.args else data.elseDest.args
  }

  function Terminator(dfg: Dfg, p: Block): Instruction
    requires |dfg.Insts(p)| > 0
  {
    dfg.Insts(p)[|dfg.Insts(p)| - 1].data
  }

  /** `dfg` with another instruction at the end of `p`. */
  function WithTerminator(dfg: Dfg, p: Block, data: Instruction): Dfg
    requires p < dfg.NumBlocks() && |dfg.Insts(p)| > 0
  {
    var insts := dfg.Insts(p);
    dfg.(blocks := dfg.blocks[p := dfg.blocks[p].(insts := insts[|insts| - 1 := insts[|insts| - 1].(data := data)])])
  }

  function WithBlock(dfg: Dfg, data: BlockData): Dfg {
    dfg.(blocks := dfg.blocks + [data])
  }

  function SplitEdge(dfg: Dfg, p: Block, b: Block): Dfg
    requires Splittable(dfg, p, b)
  {
    var last := Terminator(dfg, p);
    WithBlock(WithTerminator(dfg, p, Redirect(last, b, dfg.NumBlocks())),
              BlockData([], [InstNode(Br(JumpTable(b, ArgsTo(last, b))), [])]))
  }

  lemma SplitShape(dfg: Dfg, p: Block, b: Block)
    requires Splittable(dfg, p, b)
    ensures var d := SplitEdge(dfg, p, b); var n := dfg.NumBlocks(); var last := Terminator(dfg, p);
            && d.entry == dfg.entry && d.values == dfg.values && d.types == dfg.types && d.NumBlocks() == n + 1
            && (forall x: Block :: x < n ==> d.Params(x) == dfg.Params(x))
            && (forall x: Block :: x < n && x != p ==> d.Insts(x) == dfg.Insts(x))
            && d.Params(n) == [] && d.Insts(n) == [InstNode(Br(JumpTable(b, ArgsTo(last, b))), [])]
            && |d.Insts(p)| == |dfg.Insts(p)|
            && (forall k :: 0 <= k < |dfg.Insts(p)| - 1 ==> d.Insts(p)[k] == dfg.Insts(p)[k])
            && d.Insts(p)[|dfg.Insts(p)| - 1] == dfg.Insts(p)[|dfg.Insts(p)| - 1].(data := Redirect(last, b, n))
  {
  }

  lemma SplitTargets(dfg: Dfg, p: Block, b: Block)
    requires Splittable(dfg, p, b)
    ensures var d := SplitEdge(dfg, p, b); var n := dfg.NumBlocks(); var last := Terminator(dfg, p);
            && (forall x: Block :: x < n && x != p ==> d.Targets(x) == dfg.Targets(x))
            && d.Targets(n) == [JumpTable(b, ArgsTo(last, b))]
            && dfg.Targets(p) == [last.thenDest, last.elseDest]
            && d.Targets(p) == if last.thenDest.dest == b then [JumpTable(n, []), last.elseDest]
                               else [last.thenDest, JumpTable(n, [])]
  {
    SplitShape(dfg, p, b);
  }

  lemma SplitSuccs(dfg: Dfg, p: Block, b: Block)
    requires Splittable(dfg, p, b)
    ensures var d := SplitEdge(dfg, p, b); var n := dfg.NumBlocks();
            && (forall x: Block :: x < n && x != p ==> SuccSet(d, x) == SuccSet(dfg, x))
            && SuccSet(d, n) == {b}
            && SuccSet(d, p) == SuccSet(dfg, p) - {b} + {n} && b in SuccSet(dfg, p)
  {
    hide SplitEdge;
    var d := SplitEdge(dfg, p, b);
    SplitShape(dfg, p, b);
    SplitTargets(dfg, p, b);
    BranchSuccs(dfg, p);
    BranchSuccs(d, p);
    BranchSuccs(d, dfg.NumBlocks());
    forall x: Block | x < dfg.NumBlocks() && x != p ensures SuccSet(d, x) == SuccSet(dfg, x) {
      assert d.Targets(x) == dfg.Targets(x);
    }
  }

  lemma SplitWellFormed(dfg: Dfg, p: Block, b: Block)
    requires Splittable(dfg, p, b) && dfg.WellFormed()
    ensures SplitEdge(dfg, p, b).WellFormed()
  {
    hide SplitEdge;
    var d := SplitEdge(dfg, p, b);
    SplitShape(dfg, p, b);
    SplitTargets(dfg, p, b);
    forall x: Block, t | x < d.NumBlocks() && t in d.Targets(x) ensures t.dest < d.NumBlocks() {
      if x < dfg.NumBlocks() && t in dfg.Targets(x) {
        assert t.dest < dfg.NumBlocks();
      }
    }
  }

  lemma SplitGraph(dfg: Dfg, p: Block, b: Block)
    requires Splittable(dfg, p, b) && dfg.WellFormed()
    ensures SplitsGraph(GraphOf(dfg), p, b, GraphOf(SplitEdge(dfg, p, b)))
  {
    hide SplitEdge, Edge, GraphOf, SuccSet;
    var d := SplitEdge(dfg, p, b);
    var n := dfg.NumBlocks();
    SplitShape(dfg, p, b);
    SplitSuccs(dfg, p, b);
    SplitWellFormed(dfg, p, b);
    var g, g' := GraphOf(dfg), GraphOf(d);
    EdgeIff(dfg, p, b);
    forall x: nat, y: nat
      ensures Edge(g', x, y) <==> if x == n then y == b
                                  else if x == p then y == n || (y != b && Edge(g, p, y))
                                  else Edge(g, x, y)
    {
      EdgeIff(dfg, x, y);
      EdgeIff(d, x, y);
      if x < n {
        SuccInRange(dfg, x, y);
      }
    }
  }

  // Runs

  /** Not in the new block. */
  predicate Original(n: nat, c: Config) {
    c.At? ==> c.block < n
  }

  /** At the branch that ends `p`, about to take the edge to `b`. */
  ghost predicate AtEdge(dfg: Dfg, p: Block, b: Block, c: Config)
    requires Splittable(dfg, p, b)
  {
    && c.At? && c.block == p && c.pos == |dfg.Insts(p)| - 1
    && Chosen(Terminator(dfg, p), c.env).Some? && Chosen(Terminator(dfg, p), c.env).value.dest == b
  }

  /** The same state, at the start of block `s`. */
  function Moved(c: Config, s: Block): Config
    requires c.At?
  {
    At(s, 0, c.env, c.trace)
  }

  lemma SplitChosen(dfg: Dfg, p: Block, b: Block, env: Env)
    requires Splittable(dfg, p, b) && b != dfg.NumBlocks()
    ensures var last := Terminator(dfg, p); var n := dfg.NumBlocks();
            var t := Chosen(last, env); var t' := Chosen(Redirect(last, b, n), env);
            && t.Some? == t'.Some?
            && (t.Some? ==> if t.value.dest == b
                            then t' == Some(JumpTable(n, [])) && t.value.args == ArgsTo(last, b)
                            else t' == t)
  {
  }

  /** Entering the new block changes nothing but the place. */
  lemma EnterSplit(dfg: Dfg, p: Block, b: Block, c: Config, c': Config)
    requires Splittable(dfg, p, b) && AtEdge(dfg, p, b, c)
    ensures Step(SplitEdge(dfg, p, b), c, c') <==> c' == Moved(c, dfg.NumBlocks())
  {
    hide SplitEdge;
    SplitShape(dfg, p, b);
    SplitChosen(dfg, p, b, c.env);
    var d := SplitEdge(dfg, p, b);
    var n := dfg.NumBlocks();
    assert d.HasInst(Inst(p, c.pos)) && d.InstAt(Inst(p, c.pos)).data == Redirect(Terminator(dfg, p), b, n);
    assert Bind(c.env, [], Read(c.env, [])) == c.env;
  }

  /** Leaving it is the jump the original took. */
  lemma LeaveSplit(dfg: Dfg, p: Block, b: Block, c: Config, c': Config)
    requires Splittable(dfg, p, b) && AtEdge(dfg, p, b, c)
    ensures Step(SplitEdge(dfg, p, b), Moved(c, dfg.NumBlocks()), c') <==> Step(dfg, c, c')
  {
    hide SplitEdge;
    SplitShape(dfg, p, b);
    SplitChosen(dfg, p, b, c.env);
    var d := SplitEdge(dfg, p, b);
    var n := dfg.NumBlocks();
    assert d.InstAt(Inst(n, 0)).data == Br(JumpTable(b, ArgsTo(Terminator(dfg, p), b)));
    assert dfg.InstAt(Inst(p, c.pos)).data == Terminator(dfg, p);
    assert d.Params(b) == dfg.Params(b);
  }

  /** No instruction, wherever it stands, branches to a block that does not exist. */
  ghost predicate BranchesAttached(dfg: Dfg) {
    forall i: Inst, t {:trigger BranchesTo(dfg, i, t)} :: BranchesTo(dfg, i, t) ==> t.dest < dfg.NumBlocks()
  }

  predicate BranchesTo(dfg: Dfg, i: Inst, t: JumpTable) {
    dfg.HasInst(i) && t in dfg.InstAt(i).data.Targets()
  }

  /** The targets of a block are those of its last instruction. */
  lemma LastTargets(dfg: Dfg, x: Block)
    requires x < dfg.NumBlocks() && |dfg.Insts(x)| > 0
    ensures var i := Inst(x, |dfg.Insts(x)| - 1);
            dfg.HasInst(i) && dfg.InstAt(i).data.Targets() == dfg.Targets(x)
  {
  }

  /** Every instruction but the redirected branch is as it was. */
  lemma KeptBranch(dfg: Dfg, p: Block, b: Block, i: Inst, t: JumpTable)
    requires Splittable(dfg, p, b) && BranchesAttached(dfg) && BranchesTo(SplitEdge(dfg, p, b), i, t)
    requires i.block < dfg.NumBlocks() && (i.block != p || i.pos != |dfg.Insts(p)| - 1)
    ensures t.dest < dfg.NumBlocks()
  {
    hide SplitEdge, Dfg.Targets, Instruction.Targets, Redirect;
    SplitShape(dfg, p, b);
    assert SplitEdge(dfg, p, b).InstAt(i) == dfg.InstAt(i);
    assert BranchesTo(dfg, i, t);
  }

  lemma RedirectedBranch(dfg: Dfg, p: Block, b: Block, t: JumpTable)
    requires Splittable(dfg, p, b) && BranchesAttached(dfg) && t in SplitEdge(dfg, p, b).Targets(p)
    ensures t.dest <= dfg.NumBlocks()
  {
    hide SplitEdge, Dfg.Targets, Instruction.Targets, Redirect;
    SplitTargets(dfg, p, b);
    LastTargets(dfg, p);
    var i, last := Inst(p, |dfg.Insts(p)| - 1), Terminator(dfg, p);
    assert BranchesTo(dfg, i, last.thenDest) && BranchesTo(dfg, i, last.elseDest);
  }

  lemma SplitAttached(dfg: Dfg, p: Block, b: Block)
    requires Splittable(dfg, p, b) && BranchesAttached(dfg)
    ensures BranchesAttached(SplitEdge(dfg, p, b))
  {
    hide SplitEdge, Dfg.Targets, Instruction.Targets, Redirect;
    var d := SplitEdge(dfg, p, b);
    var n := dfg.NumBlocks();
    SplitShape(dfg, p, b);
    SplitTargets(dfg, p, b);
    LastTargets(d, p);
    LastTargets(d, n);
    forall i: Inst, t | BranchesTo(d, i, t) ensures t.dest <= n {
      if i.block == n {
        assert t == JumpTable(b, ArgsTo(Terminator(dfg, p), b));
      } else if i.block == p && i.pos == |dfg.Insts(p)| - 1 {
        RedirectedBranch(dfg, p, b, t);
      } else {
        KeptBranch(dfg, p, b, i, t);
      }
    }
  }

  /** Every other step is the same in both functions. */
  lemma OtherSteps(dfg: Dfg, p: Block, b: Block, c: Config, c': Config)
    requires Splittable(dfg, p, b) && BranchesAttached(dfg)
    requires c.At? && c.block < dfg.NumBlocks() && !AtEdge(dfg, p, b, c)
    ensures Step(SplitEdge(dfg, p, b), c, c') <==> Step(dfg, c, c')
  {
    hide SplitEdge, Chosen, Jump, OpStep;
    SplitShape(dfg, p, b);
    SplitChosen(dfg, p, b, c.env);
    var d := SplitEdge(dfg, p, b);
    var i := Inst(c.block, c.pos);
    assert d.HasInst(i) <==> dfg.HasInst(i);
    if dfg.HasInst(i) {
      var node, node' := dfg.InstAt(i), d.InstAt(i);
      assert Chosen(node.data, c.env) == Chosen(node'.data, c.env);
      if Chosen(node.data, c.env).Some? {
        var t := Chosen(node.data, c.env).value;
        ChosenIsTarget(node.data, c.env);
        assert BranchesTo(dfg, i, t);
        SameJump(dfg, p, b, c, t, c');
      }
      if c.block != p || c.pos != |dfg.Insts(p)| - 1 {
        assert node' == node;
      }
    }
  }

  lemma SameJump(dfg: Dfg, p: Block, b: Block, c: Config, t: JumpTable, c': Config)
    requires Splittable(dfg, p, b) && c.At? && t.dest < dfg.NumBlocks()
    ensures Jump(SplitEdge(dfg, p, b), c, t, c') <==> Jump(dfg, c, t, c')
  {
    hide SplitEdge;
    SplitShape(dfg, p, b);
  }

  lemma StepStaysOriginal(dfg: Dfg, c: Config, c': Config)
    requires Step(dfg, c, c') && Original(dfg.NumBlocks(), c)
    ensures Original(dfg.NumBlocks(), c')
  {
  }

  /** What the original reaches, the split function reaches. */
  lemma {:induction false} RunForward(dfg: Dfg, p: Block, b: Block, cs: seq<Config>)
    requires Splittable(dfg, p, b) && BranchesAttached(dfg) && dfg.entry < dfg.NumBlocks() && IsRun(dfg, cs)
    ensures Original(dfg.NumBlocks(), cs[|cs| - 1]) && Reaches(SplitEdge(dfg, p, b), cs[|cs| - 1])
    decreases |cs|
  {
    hide SplitEdge, Splittable, Step, Reaches, AtEdge;
    var d := SplitEdge(dfg, p, b);
    var c' := cs[|cs| - 1];
    SplitShape(dfg, p, b);
    if |cs| == 1 {
      ReachesInit(d, c');
    } else {
      var c := cs[|cs| - 2];
      RunForward(dfg, p, b, cs[..|cs| - 1]);
      StepStaysOriginal(dfg, c, c');
      StepFromAt(dfg, c, c');
      if AtEdge(dfg, p, b, c) {
        EnterSplit(dfg, p, b, c, Moved(c, dfg.NumBlocks()));
        LeaveSplit(dfg, p, b, c, c');
        ReachesStep(d, c, Moved(c, dfg.NumBlocks()));
        ReachesStep(d, Moved(c, dfg.NumBlocks()), c');
      } else {
        OtherSteps(dfg, p, b, c, c');
        ReachesStep(d, c, c');
      }
    }
  }

  lemma StepFromAt(dfg: Dfg, c: Config, c': Config)
    requires Step(dfg, c, c')
    ensures c.At?
  {
  }

  /** A configuration of the new block stands for one of the original, about to take the edge. */
  ghost predicate StandsFor(dfg: Dfg, p: Block, b: Block, c: Config, c0: Config)
    requires Splittable(dfg, p, b)
  {
    AtEdge(dfg, p, b, c0) && c == Moved(c0, dfg.NumBlocks()) && Reaches(dfg, c0)
  }

  /** What the split function reaches, the original reaches, outside of the new block. */
  lemma {:induction false} RunBackward(dfg: Dfg, p: Block, b: Block, cs: seq<Config>) returns (c0: Config)
    requires Splittable(dfg, p, b) && BranchesAttached(dfg) && dfg.entry < dfg.NumBlocks()
    requires IsRun(SplitEdge(dfg, p, b), cs)
    ensures var c := cs[|cs| - 1];
            if Original(dfg.NumBlocks(), c) then Reaches(dfg, c) else StandsFor(dfg, p, b, c, c0)
    decreases |cs|
  {
    hide SplitEdge, Splittable, Step, Reaches, AtEdge;
    var d := SplitEdge(dfg, p, b);
    var c' := cs[|cs| - 1];
    SplitShape(dfg, p, b);
    c0 := c';
    if |cs| == 1 {
      ReachesInit(dfg, c');
    } else {
      var c := cs[|cs| - 2];
      var c1 := RunBackward(dfg, p, b, cs[..|cs| - 1]);
      StepFromAt(d, c, c');
      if !Original(dfg.NumBlocks(), c) {
        LeaveSplit(dfg, p, b, c1, c');
        SourceIsOriginal(dfg, p, b, c1);
        StepStaysOriginal(dfg, c1, c');
        ReachesStep(dfg, c1, c');
      } else if AtEdge(dfg, p, b, c) {
        EnterSplit(dfg, p, b, c, c');
        c0 := c;
      } else {
        OtherSteps(dfg, p, b, c, c');
        StepStaysOriginal(dfg, c, c');
        ReachesStep(dfg, c, c');
      }
    }
  }

  lemma SourceIsOriginal(dfg: Dfg, p: Block, b: Block, c: Config)
    requires Splittable(dfg, p, b) && AtEdge(dfg, p, b, c)
    ensures Original(dfg.NumBlocks(), c)
  {
  }

  /** The two functions reach the same configurations of the original's blocks, and the same results. */
  lemma SplitReaches(dfg: Dfg, p: Block, b: Block, c: Config)
    requires Splittable(dfg, p, b) && BranchesAttached(dfg) && dfg.entry < dfg.NumBlocks()
    ensures Original(dfg.NumBlocks(), c) ==> (Reaches(SplitEdge(dfg, p, b), c) <==> Reaches(dfg, c))
    ensures !Original(dfg.NumBlocks(), c) ==>
              (Reaches(SplitEdge(dfg, p, b), c) <==> exists c0 :: StandsFor(dfg, p, b, c, c0))
    ensures Reaches(dfg, c) ==> Original(dfg.NumBlocks(), c)
  {
    hide SplitEdge, Splittable, Step, AtEdge;
    if Reaches(SplitEdge(dfg, p, b), c) {
      var cs :| IsRun(SplitEdge(dfg, p, b), cs) && cs[|cs| - 1] == c;
      var c0 := RunBackward(dfg, p, b, cs);
    }
    if Reaches(dfg, c) {
      var cs :| IsRun(dfg, cs) && cs[|cs| - 1] == c;
      RunForward(dfg, p, b, cs);
    }
    if c0 :| StandsFor(dfg, p, b, c, c0) {
      var cs :| IsRun(dfg, cs) && cs[|cs| - 1] == c0;
      RunForward(dfg, p, b, cs);
      EnterSplit(dfg, p, b, c0, c);
      ReachesStep(SplitEdge(dfg, p, b), c0, c);
    }
  }

  // Validity

  /** Where a value is read in the split function, it was read in the original. */
  lemma SplitUses(dfg: Dfg, p: Block, b: Block, i: Inst, v: Value)
    requires Splittable(dfg, p, b) && UsedBy(SplitEdge(dfg, p, b), i, v)
    ensures i.block == dfg.NumBlocks() ==> i.pos == 0 && UsedBy(dfg, Inst(p, |dfg.Insts(p)| - 1), v)
    ensures i.block != dfg.NumBlocks() ==>
              UsedBy(dfg, i, v) && SplitEdge(dfg, p, b).InstAt(i).results == dfg.InstAt(i).results
  {
    hide SplitEdge;
    SplitShape(dfg, p, b);
    SplitTargets(dfg, p, b);
    var d := SplitEdge(dfg, p, b);
    var n := dfg.NumBlocks();
    var ts := dfg.Targets(p);
    assert ts[0] in ts && ts[1] in ts;
    if i.block == n {
      assert v in d.Targets(n)[0].args;
    } else if i.block == p && i.pos == |dfg.Insts(p)| - 1 {
      assert dfg.InstAt(i).data.Targets() == ts && d.InstAt(i).data.Targets() == d.Targets(p);
    } else {
      assert d.InstAt(i) == dfg.InstAt(i);
    }
  }

  /** No value of a detached block is used. */
  ghost predicate DefsAttached(dfg: Dfg) {
    forall i: Inst, v: Value {:trigger UsedBy(dfg, i, v)} ::
      UsedBy(dfg, i, v) && v in dfg.values ==> DefBlock(dfg.values[v]) < dfg.NumBlocks()
  }

  lemma ValidDefsAttached(dfg: Dfg)
    requires ValidFunction(dfg)
    ensures DefsAttached(dfg)
  {
    hide UsedBy, UseOk, ValidFunction;
    forall i: Inst, v: Value | UsedBy(dfg, i, v) && v in dfg.values ensures DefBlock(dfg.values[v]) < dfg.NumBlocks() {
      ValidUse(dfg, i, v);
      UseOkIsAttached(dfg, i, v);
    }
  }

  lemma UserExists(dfg: Dfg, i: Inst, v: Value)
    requires UsedBy(dfg, i, v)
    ensures i.block < dfg.NumBlocks() && i.pos < |dfg.Insts(i.block)|
  {
  }

  lemma SplitConsistent(dfg: Dfg, p: Block, b: Block)
    requires Splittable(dfg, p, b) && Consistent(dfg) && DefsAttached(dfg)
    ensures Consistent(SplitEdge(dfg, p, b)) && DefsAttached(SplitEdge(dfg, p, b))
  {
    hide SplitEdge, UsedBy;
    SplitShape(dfg, p, b);
    var d := SplitEdge(dfg, p, b);
    forall i: Inst, v: Value | UsedBy(d, i, v)
      ensures v in d.values && DefinedThere(d, v, d.values[v]) && DefBlock(d.values[v]) < dfg.NumBlocks()
    {
      SplitUses(dfg, p, b, i, v);
      if i.block == dfg.NumBlocks() {
        assert UsedBy(dfg, Inst(p, |dfg.Insts(p)| - 1), v);
      } else {
        assert UsedBy(dfg, i, v);
      }
      SameDefinition(dfg, p, b, v);
    }
    forall i: Inst | d.HasInst(i) && d.InstAt(i).data.IsTerminator() ensures d.InstAt(i).results == [] {
      if i.block < dfg.NumBlocks() {
        assert dfg.HasInst(i);
      }
    }
  }

  lemma SameDefinition(dfg: Dfg, p: Block, b: Block, v: Value)
    requires Splittable(dfg, p, b) && v in dfg.values && DefBlock(dfg.values[v]) < dfg.NumBlocks()
    requires DefinedThere(dfg, v, dfg.values[v])
    ensures DefinedThere(SplitEdge(dfg, p, b), v, dfg.values[v])
  {
    hide SplitEdge;
    SplitShape(dfg, p, b);
  }

  /** A point of the original dominates what it did. */
  lemma SplitDominates(dfg: Dfg, p: Block, b: Block, x: ProgramPoint, y: ProgramPoint)
    requires Splittable(dfg, p, b) && dfg.WellFormed()
    requires x.PPBlock() < dfg.NumBlocks() && y.PPBlock() < dfg.NumBlocks()
    ensures DominatesSpec(SplitEdge(dfg, p, b), x, y) <==> DominatesSpec(dfg, x, y)
  {
    hide SplitEdge, Reachable, PointDom, Dom;
    var d := SplitEdge(dfg, p, b);
    SplitShape(dfg, p, b);
    SplitGraph(dfg, p, b);
    SplitReachable(GraphOf(dfg), p, b, GraphOf(d), y.PPBlock());
    SplitDom(GraphOf(dfg), p, b, GraphOf(d), x.PPBlock(), y.PPBlock());
    if Reachable(GraphOf(dfg), y.PPBlock()) {
      PointDomIffDom(dfg, x, y);
      PointDomIffDom(d, x, y);
    }
  }

  /** And a point that dominated the branch dominates the new block. */
  lemma NewBlockDominated(dfg: Dfg, p: Block, b: Block, x: ProgramPoint, y: ProgramPoint, z: ProgramPoint)
    requires Splittable(dfg, p, b) && dfg.WellFormed() && Reachable(GraphOf(dfg), p)
    requires x.PPBlock() < dfg.NumBlocks() && y.PPBlock() == p && z.PPBlock() == dfg.NumBlocks()
    requires DominatesSpec(dfg, x, y)
    ensures DominatesSpec(SplitEdge(dfg, p, b), x, z)
  {
    hide SplitEdge, Reachable, PointDom, Dom;
    var d := SplitEdge(dfg, p, b);
    SplitShape(dfg, p, b);
    SplitGraph(dfg, p, b);
    NewVertexDom(GraphOf(dfg), p, b, GraphOf(d), x.PPBlock());
    PointDomIffDom(dfg, x, y);
    PointDomIffDom(d, x, z);
    if x.PPBlock() == p {
      DomRefl(GraphOf(dfg), p);
    }
  }

  lemma SplitUseOk(dfg: Dfg, p: Block, b: Block, i: Inst, v: Value)
    requires Splittable(dfg, p, b) && dfg.WellFormed()
    requires UsedBy(dfg, i, v) && v in dfg.values && UseOk(dfg, i, v)
    ensures v in SplitEdge(dfg, p, b).values && UseOk(SplitEdge(dfg, p, b), i, v)
  {
    hide SplitEdge, DominatesSpec;
    SplitShape(dfg, p, b);
    UserExists(dfg, i, v);
    UseOkIsAttached(dfg, i, v);
    match dfg.values[v] {
      case Param(a) => SplitDominates(dfg, p, b, AtBlock(a), AtBlock(i.block));
      case Result(j) => SplitDominates(dfg, p, b, AtInst(j), AtInst(i));
    }
  }

  /** What the branch could pass along its edge, the new block can pass on. */
  lemma MovedUseOk(dfg: Dfg, p: Block, b: Block, v: Value)
    requires Splittable(dfg, p, b) && dfg.WellFormed() && Reachable(GraphOf(dfg), p)
    requires UsedBy(dfg, Inst(p, |dfg.Insts(p)| - 1), v) && v in dfg.values
    requires UseOk(dfg, Inst(p, |dfg.Insts(p)| - 1), v)
    ensures v in SplitEdge(dfg, p, b).values && UseOk(SplitEdge(dfg, p, b), Inst(dfg.NumBlocks(), 0), v)
  {
    hide SplitEdge, DominatesSpec, Reachable;
    SplitShape(dfg, p, b);
    var i, i' := Inst(p, |dfg.Insts(p)| - 1), Inst(dfg.NumBlocks(), 0);
    UseOkIsAttached(dfg, i, v);
    match dfg.values[v] {
      case Param(a) =>
        SelfDominates(dfg, p);
        NewBlockDominated(dfg, p, b, AtBlock(a), AtBlock(p), AtBlock(i'.block));
      case Result(j) =>
        NewBlockDominated(dfg, p, b, AtInst(j), AtInst(i), AtInst(i'));
    }
  }

  lemma SelfDominates(dfg: Dfg, p: Block)
    ensures DominatesSpec(dfg, AtBlock(p), AtBlock(p))
  {
  }

  lemma SplitUsesOk(dfg: Dfg, p: Block, b: Block, x: Block)
    requires Splittable(dfg, p, b) && dfg.WellFormed() && Reachable(GraphOf(dfg), p)
    requires x <= dfg.NumBlocks() && (x < dfg.NumBlocks() ==> UsesOk(dfg, x)) && UsesOk(dfg, p)
    ensures UsesOk(SplitEdge(dfg, p, b), x)
  {
    hide SplitEdge, UsedBy, UseOk, Reachable;
    SplitShape(dfg, p, b);
    var d := SplitEdge(dfg, p, b);
    var n := dfg.NumBlocks();
    forall k: nat | k < |d.Insts(x)| ensures InstUsesOk(d, Inst(x, k)) {
      forall v: Value | UsedBy(d, Inst(x, k), v)
        ensures v !in d.InstAt(Inst(x, k)).results && v in d.values && UseOk(d, Inst(x, k), v)
      {
        SplitUses(dfg, p, b, Inst(x, k), v);
        if x == n {
          assert InstUsesOk(dfg, Inst(p, |dfg.Insts(p)| - 1));
          MovedUseOk(dfg, p, b, v);
          assert d.InstAt(Inst(n, 0)).results == [];
        } else {
          assert InstUsesOk(dfg, Inst(x, k));
          SplitUseOk(dfg, p, b, Inst(x, k), v);
        }
      }
    }
  }

  /** A block with the same instructions, in a function with more blocks. */
  lemma SameBlockOk(dfg: Dfg, d: Dfg, x: Block)
    requires BlockOk(dfg, x) && d.Insts(x) == dfg.Insts(x) && dfg.NumBlocks() <= d.NumBlocks()
    ensures BlockOk(d, x)
  {
    hide DistinctDests;
    SameTargets(dfg, d, x);
  }

  lemma SameTargets(dfg: Dfg, d: Dfg, x: Block)
    requires d.Insts(x) == dfg.Insts(x)
    ensures d.Targets(x) == dfg.Targets(x)
  {
  }

  /** The redirected branch. */
  lemma SplitSourceOk(dfg: Dfg, p: Block, b: Block)
    requires Splittable(dfg, p, b) && BlockOk(dfg, p)
    ensures BlockOk(SplitEdge(dfg, p, b), p)
  {
    hide SplitEdge, Dfg.Targets;
    var d := SplitEdge(dfg, p, b);
    SplitShape(dfg, p, b);
    SplitTargets(dfg, p, b);
    var ts := dfg.Targets(p);
    assert ts[0] in ts && ts[1] in ts;
    var insts := d.Insts(p);
    assert insts[|insts| - 1].data.IsTerminator();
    forall k | 0 <= k < |insts| - 1 ensures !insts[k].data.IsTerminator() {
      assert insts[k] == dfg.Insts(p)[k];
    }
  }

  lemma SplitBlockOk(dfg: Dfg, p: Block, b: Block, x: Block)
    requires Splittable(dfg, p, b) && dfg.WellFormed()
    requires x <= dfg.NumBlocks() && (x < dfg.NumBlocks() ==> BlockOk(dfg, x))
    ensures BlockOk(SplitEdge(dfg, p, b), x)
  {
    hide SplitEdge, Dfg.Targets;
    SplitShape(dfg, p, b);
    if x == p {
      SplitSourceOk(dfg, p, b);
    } else if x < dfg.NumBlocks() {
      hide BlockOk;
      SameBlockOk(dfg, SplitEdge(dfg, p, b), x);
    } else {
      SplitTargets(dfg, p, b);
    }
  }

  lemma SplitTypesOk(dfg: Dfg, p: Block, b: Block, x: Block)
    requires Splittable(dfg, p, b) && dfg.WellFormed() && BranchesAttached(dfg)
    requires x <= dfg.NumBlocks() && (x < dfg.NumBlocks() ==> TypesOk(dfg, x)) && TypesOk(dfg, p)
    ensures TypesOk(SplitEdge(dfg, p, b), x)
  {
    hide SplitEdge, Dfg.Targets, BranchesAttached;
    SplitShape(dfg, p, b);
    var d := SplitEdge(dfg, p, b);
    forall k | 0 <= k < |d.Insts(x)| ensures InstTypesOk(d, d.Insts(x)[k].data) {
      if x < dfg.NumBlocks() && (x != p || k != |dfg.Insts(p)| - 1) {
        SameTypes(dfg, p, b, Inst(x, k));
      } else {
        MovedTypes(dfg, p, b, x);
      }
    }
  }

  lemma SameTypes(dfg: Dfg, p: Block, b: Block, i: Inst)
    requires Splittable(dfg, p, b) && BranchesAttached(dfg) && dfg.HasInst(i) && InstTypesOk(dfg, dfg.InstAt(i).data)
    ensures InstTypesOk(SplitEdge(dfg, p, b), dfg.InstAt(i).data)
  {
    hide SplitEdge, Dfg.Targets, Instruction.Targets;
    SplitShape(dfg, p, b);
    forall t | t in dfg.InstAt(i).data.Targets() ensures |t.args| == |SplitEdge(dfg, p, b).Params(t.dest)| {
      assert BranchesTo(dfg, i, t);
    }
  }

  lemma MovedTypes(dfg: Dfg, p: Block, b: Block, x: Block)
    requires Splittable(dfg, p, b) && dfg.WellFormed() && TypesOk(dfg, p) && (x == p || x == dfg.NumBlocks())
    ensures var insts := SplitEdge(dfg, p, b).Insts(x);
            |insts| > 0 && InstTypesOk(SplitEdge(dfg, p, b), insts[|insts| - 1].data)
  {
    hide SplitEdge;
    SplitShape(dfg, p, b);
    SplitTargets(dfg, p, b);
    var ts := dfg.Targets(p);
    assert ts[0] in ts && ts[1] in ts;
    assert InstTypesOk(dfg, dfg.Insts(p)[|dfg.Insts(p)| - 1].data);
  }

  lemma ValidIsAttached(dfg: Dfg)
    requires Consistent(dfg) && ValidFunction(dfg)
    ensures dfg.WellFormed() && BranchesAttached(dfg)
  {
    forall x: Block, t | x < dfg.NumBlocks() && t in dfg.Targets(x) ensures t.dest < dfg.NumBlocks() {
      assert BlockOk(dfg, x);
    }
    forall i: Inst, t | BranchesTo(dfg, i, t) ensures t.dest < dfg.NumBlocks() {
      assert BlockOk(dfg, i.block);
      assert dfg.InstAt(i).data.IsTerminator();
      assert t in dfg.Targets(i.block);
    }
  }

  /** Splitting an edge that can be taken keeps the function valid. */
  lemma SplitIsValid(dfg: Dfg, p: Block, b: Block)
    requires Splittable(dfg, p, b) && Reachable(GraphOf(dfg), p) && Consistent(dfg) && ValidFunction(dfg)
    ensures ValidFunction(SplitEdge(dfg, p, b))
  {
    hide SplitEdge, Splittable, BlockOk, UsesOk, TypesOk, Reachable;
    ValidIsAttached(dfg);
    SplitShape(dfg, p, b);
    SourceExists(dfg, p, b);
    assert BlockOk(dfg, p);
    forall x: Block | x < dfg.NumBlocks() + 1
      ensures BlockOk(SplitEdge(dfg, p, b), x) && UsesOk(SplitEdge(dfg, p, b), x) && TypesOk(SplitEdge(dfg, p, b), x)
    {
      if x < dfg.NumBlocks() {
        assert BlockOk(dfg, x);
      }
      SplitBlockOk(dfg, p, b, x);
      SplitUsesOk(dfg, p, b, x);
      SplitTypesOk(dfg, p, b, x);
    }
  }

  lemma SourceExists(dfg: Dfg, p: Block, b: Block)
    requires Splittable(dfg, p, b)
    ensures p < dfg.NumBlocks()
  {
  }
}
