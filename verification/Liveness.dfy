/** Global next-use distances: backward scans of the blocks, repeated until no block's own header
    changes. */
module Liveness {
  import opened IR
  import opened Graphs
  import opened ControlFlow
  import opened DomTreeTheory
  import opened PostorderTheory
  import opened Dominance
  import opened LoopTheory
  import opened Loops
  import opened Validation
  import opened LivenessTheory

  /** Every recorded loop is one of `loops`, and parents come first. */
  ghost predicate LoopsUsable(loops: seq<LoopData>, tags: LoopMap) {
    ParentsBefore(loops) && forall b :: 0 <= b < |tags| && tags[b].Some? ==> tags[b].value < |loops|
  }

  lemma ForestIsUsable(dfg: Dfg, ns: seq<Node>, loops: seq<LoopData>, tags: LoopMap)
    requires IsLoopForest(dfg, ns, loops, tags)
    ensures LoopsUsable(loops, tags)
  {
  }

  // When the analysis gives up

  ghost predicate HasOnePred(data: CfgData, t: JumpTable) {
    |Preds(data, t.dest)| == 1
  }

  ghost predicate BranchOk(dfg: Dfg, data: CfgData, b: Block, k: nat)
    requires k < |dfg.Insts(b)|
  {
    dfg.Insts(b)[k].data.AnalyzeBranch().MultiDest? ==>
      forall t :: t in dfg.Insts(b)[k].data.Targets() ==> HasOnePred(data, t)
  }

  /** The block is not empty, and no edge of a branch with several targets is critical. */
  ghost predicate Analyzable(dfg: Dfg, data: CfgData, b: Block) {
    |dfg.Insts(b)| > 0 && forall k: nat {:trigger BranchOk(dfg, data, b, k)} ::
        k < |dfg.Insts(b)| ==> BranchOk(dfg, data, b, k)
  }

  // The state of the analysis

  ghost predicate Records(m: Table, x: ProgramPoint, s: NextUseSet) {
    x in m && m[x] == s
  }

  ghost predicate SameAt(m: Table, m': Table, x: ProgramPoint) {
    (x in m <==> x in m') && (x in m ==> m'[x] == m[x])
  }

  /** Only empty sets have been added, at the heads of blocks. */
  ghost predicate DefaultsOnly(L: Table, L': Table) {
    && (forall x: ProgramPoint :: x in L ==> x in L' && L'[x] == L[x])
    && (forall x: ProgramPoint :: x in L' && x !in L ==> x.AtBlock? && L'[x] == map[])
  }

  predicate InstOf(dfg: Dfg, b: Block, x: ProgramPoint) {
    x.AtInst? && x.inst.block == b && dfg.HasInst(x.inst)
  }

  /** An instruction of `b` from position `k` on branches to `s`. */
  ghost predicate TargetFrom(dfg: Dfg, b: Block, k: nat, s: Block) {
    exists j: nat, t {:trigger BranchesFrom(dfg, b, j, t)} :: k <= j && BranchesFrom(dfg, b, j, t) && t.dest == s
  }

  /** The heads of the blocks that a branch goes to. */
  function HeadsOf(jts: seq<JumpTable>): set<ProgramPoint> {
    set t | t in jts :: AtBlock(t.dest)
  }

  lemma {:induction false} NoEdges(c: Context, L: Table, b: Block, jts: seq<JumpTable>)
    ensures c.JoinEdges(L, b, jts[..0]) == map[] && c.JoinUses(L, b, jts[..0]) == map[] && HeadsOf(jts[..0]) == {}
  {
  }

  /** What one more edge adds. */
  lemma {:induction false} EdgesNext(c: Context, L: Table, b: Block, jts: seq<JumpTable>, m: nat)
    requires m < |jts|
    ensures c.JoinEdges(L, b, jts[..m + 1]) == Join(c.JoinEdges(L, b, jts[..m]), c.EdgeSet(L, b, jts[m]))
    ensures c.JoinUses(L, b, jts[..m + 1]) == Join(c.JoinUses(L, b, jts[..m]), c.EdgeUses(L, b, jts[m]))
    ensures HeadsOf(jts[..m + 1]) == HeadsOf(jts[..m]) + {AtBlock(jts[m].dest)}
  {
    hide Join, Context.EdgeSet, Context.EdgeUses;
    assert jts[..m + 1][..m] == jts[..m] && jts[..m + 1] == jts[..m] + [jts[m]];
  }

  /** The instructions of `b` from `k` on have been scanned. */
  ghost predicate Scanned(c: Context, b: Block, L: Table, O: Table, L': Table, O': Table, k: nat) {
    && (forall j: nat {:trigger Inst(b, j)} :: k <= j < |c.dfg.Insts(b)| ==>
          Records(L', AtInst(Inst(b, j)), c.At(L, b, j)) && Records(O', AtInst(Inst(b, j)), c.Out(L, b, j)))
    && (forall x: ProgramPoint {:trigger SameAt(L, L', x)} :: x.AtInst? && !InstOf(c.dfg, b, x) ==> SameAt(L, L', x))
    && (forall x: ProgramPoint {:trigger SameAt(O, O', x)} :: !InstOf(c.dfg, b, x) ==> SameAt(O, O', x))
    && SameHeaders(L, L')
    && (forall s: Block {:trigger AtBlock(s)} :: AtBlock(s) in L' <==> AtBlock(s) in L || TargetFrom(c.dfg, b, k, s))
  }

  /** One visit of `b` took the tables from `L` and `O` to `L'` and `O'`. */
  ghost predicate Visited(c: Context, b: Block, L: Table, O: Table, L': Table, O': Table) {
    && |c.dfg.Insts(b)| > 0
    && (forall j: nat {:trigger Inst(b, j)} :: j < |c.dfg.Insts(b)| ==>
          Records(L', AtInst(Inst(b, j)), c.At(L, b, j)) && Records(O', AtInst(Inst(b, j)), c.Out(L, b, j)))
    && Records(L', AtBlock(b), c.HeaderSet(L, b)) && Records(O', AtBlock(b), c.Out(L, b, |c.dfg.Insts(b)| - 1))
    && (forall x: ProgramPoint {:trigger SameAt(L, L', x)} :: x.AtInst? && !InstOf(c.dfg, b, x) ==> SameAt(L, L', x))
    && (forall x: ProgramPoint {:trigger SameAt(O, O', x)} ::
          !InstOf(c.dfg, b, x) && x != AtBlock(b) ==> SameAt(O, O', x))
    && (forall s: Block {:trigger Header(L', s)} :: s != b ==> Header(L', s) == Header(L, s))
    && (forall s: Block {:trigger AtBlock(s)} ::
          AtBlock(s) in L' <==> AtBlock(s) in L || s == b || TargetFrom(c.dfg, b, 0, s))
  }

  /** The two sets agree, but for the values `vs`. */
  ghost predicate AgreeOff(a: NextUseSet, b: NextUseSet, vs: set<Value>) {
    forall v :: v !in vs ==> (v in a <==> v in b) && (v in a ==> a[v] == b[v])
  }

  function ArgsOf(jts: seq<JumpTable>): set<Value> {
    set t, v | t in jts && v in t.args :: v
  }

  lemma DefaultsSame(L: Table, L': Table)
    requires DefaultsOnly(L, L')
    ensures SameHeaders(L, L')
  {
  }

  lemma DefaultsTrans(L: Table, L': Table, L'': Table)
    requires DefaultsOnly(L, L') && DefaultsOnly(L', L'')
    ensures DefaultsOnly(L, L'')
  {
  }

  lemma EdgeSame(c: Context, L: Table, L': Table, b: Block, t: JumpTable)
    requires DefaultsOnly(L, L')
    ensures c.EdgeSet(L, b, t) == c.EdgeSet(L', b, t) && c.EdgeUses(L, b, t) == c.EdgeUses(L', b, t)
  {
    DefaultsSame(L, L');
    assert Header(L, t.dest) == Header(L', t.dest);
  }

  lemma AgreeJoin(a: NextUseSet, b: NextUseSet, c: NextUseSet, d: NextUseSet, vs: set<Value>, ws: set<Value>)
    requires AgreeOff(a, b, vs) && AgreeOff(c, d, ws)
    ensures AgreeOff(Join(a, c), Join(b, d), vs + ws)
  {
  }

  lemma {:induction false} PassedAgrees(s: NextUseSet, args: seq<Value>, params: seq<Value>, k: nat)
    requires k <= |args| && k <= |params|
    ensures AgreeOff(Passed(s, args, params, k), s, ElementsOf(args))
  {
    if k > 0 {
      PassedAgrees(s, args, params, k - 1);
      assert args[k - 1] in args;
    }
  }

  /** Passing the arguments only concerns values that the branch uses. */
  lemma EdgeAgrees(c: Context, L: Table, b: Block, t: JumpTable)
    ensures AgreeOff(c.EdgeUses(L, b, t), c.EdgeSet(L, b, t), ElementsOf(t.args))
  {
    hide Passed;
    PassedAgrees(Header(L, t.dest), t.args, c.dfg.Params(t.dest), Shorter(|t.args|, |c.dfg.Params(t.dest)|));
  }

  lemma {:induction false} EdgesAgree(c: Context, L: Table, b: Block, ts: seq<JumpTable>)
    ensures AgreeOff(c.JoinUses(L, b, ts), c.JoinEdges(L, b, ts), ArgsOf(ts))
    decreases |ts|
  {
    hide Join, Context.EdgeSet, Context.EdgeUses, AgreeOff;
    if |ts| == 0 {
      NothingAgrees(ArgsOf(ts));
    } else {
      var t, rest := ts[|ts| - 1], ts[..|ts| - 1];
      EdgesAgree(c, L, b, rest);
      EdgeAgrees(c, L, b, t);
      assert ts == rest + [t];
      assert ArgsOf(ts) == ArgsOf(rest) + ElementsOf(t.args);
      AgreeJoin(c.JoinUses(L, b, rest), c.JoinEdges(L, b, rest), c.EdgeUses(L, b, t), c.EdgeSet(L, b, t),
                ArgsOf(rest), ElementsOf(t.args));
    }
  }

  /** Values that the instruction itself uses are at distance 0 anyway. */
  lemma AgreeUsed(a: NextUseSet, b: NextUseSet, vs: set<Value>, rs: seq<Value>, us: set<Value>)
    requires AgreeOff(a, b, vs) && vs <= us
    ensures Used(Defaults(a, rs), us) == Used(Defaults(b, rs), us)
  {
    var x, y := Used(Defaults(a, rs), us), Used(Defaults(b, rs), us);
    forall v ensures (v in x <==> v in y) && (v in x ==> x[v] == y[v]) {
      if v !in us {
        assert v !in vs;
      }
    }
  }

  /** The union of `a` and `b`, except that the keys in `todo` have not been taken over from `b`. */
  function JoinedBut(a: NextUseSet, b: NextUseSet, todo: set<Value>): NextUseSet {
    map v | v in a.Keys + (b.Keys - todo) :: if v in todo then a[v] else Join(a, b)[v]
  }

  lemma UnionOneMore(a: NextUseSet, b: NextUseSet, todo: set<Value>, v: Value)
    requires todo <= b.Keys && v in todo
    ensures Insert(JoinedBut(a, b, todo), v, b[v]) == JoinedBut(a, b, todo - {v})
  {
  }

  /** The header is new, and not created by an edge of the block to itself, or it differs. */
  ghost predicate AsksAgain(c: Context, b: Block, L: Table)
    requires |c.dfg.Insts(b)| > 0
  {
    (AtBlock(b) !in L && !TargetFrom(c.dfg, b, 0, b)) || Header(L, b) != c.HeaderSet(L, b)
  }

  class LivenessAnalysis {
    var liveIn: Table
    var liveOut: Table

    constructor ()
      ensures liveIn == map[] && liveOut == map[]
    {
      liveIn := map[];
      liveOut := map[];
    }

    method UnionOf(a: NextUseSet, b: NextUseSet) returns (r: NextUseSet)
      ensures r == Join(a, b)
    {
      r := a;
      var todo := b.Keys;
      assert JoinedBut(a, b, todo) == a;
      while todo != {}
        invariant todo <= b.Keys
        invariant r == JoinedBut(a, b, todo)
        decreases todo
      {
        var v :| v in todo;
        UnionOneMore(a, b, todo, v);
        r := Insert(r, v, b[v]);
        todo := todo - {v};
      }
    }

    /** An argument is used by the branch if the parameter that takes it is live. */
    method PassArguments(s: NextUseSet, args: seq<Value>, params: seq<Value>) returns (r: NextUseSet)
      ensures r == Passed(s, args, params, Shorter(|args|, |params|))
    {
      r := s;
      var i := 0;
      while i < |args| && i < |params|
        invariant 0 <= i <= |args| && i <= |params|
        invariant r == Passed(s, args, params, i)
      {
        if IsLive(r, params[i]) {
          r := Insert(r, args[i], 0);
        }
        i := i + 1;
      }
    }

    method IsLoopExit(ghost c: Context, loops: LoopAnalysis, b: Block, s: Block) returns (r: bool)
      requires LoopsUsable(loops.loops, loops.tags) && c.loops == loops.loops && c.tags == loops.tags
      ensures r <==> c.LoopExit(b, s)
    {
      var blockLoop := if b < |loops.tags| then loops.tags[b] else None;
      if blockLoop.None? {
        return false;
      }
      var succLoop := if s < |loops.tags| then loops.tags[s] else None;
      if succLoop.None? {
        return true;
      }
      var child := loops.IsChildLoop(blockLoop.value, succLoop.value);
      r := blockLoop.value != succLoop.value && child;
    }

    /** What is live over one edge: as seen by the branch, whose arguments count as used, and after it. */
    method OverEdge(dfg: Dfg, loops: LoopAnalysis, ghost c: Context, b: Block, t: JumpTable)
            returns (uses: NextUseSet, after: NextUseSet)
      requires LoopsUsable(loops.loops, loops.tags) && c == Context(dfg, loops.loops, loops.tags)
      modifies this`liveIn
      ensures DefaultsOnly(old(liveIn), liveIn) && liveIn.Keys == old(liveIn).Keys + {AtBlock(t.dest)}
      ensures after == c.EdgeSet(old(liveIn), b, t)
      ensures uses == c.EdgeUses(old(liveIn), b, t)
    {
      var params := dfg.Params(t.dest);
      if AtBlock(t.dest) !in liveIn {
        liveIn := liveIn[AtBlock(t.dest) := map[]];
      }
      after := liveIn[AtBlock(t.dest)];
      assert after == Header(old(liveIn), t.dest);
      uses := PassArguments(after, t.args, params);
      uses := Minus(uses, params);
      after := Minus(after, params);
      var exits := IsLoopExit(c, loops, b, t.dest);
      if exits {
        uses := Plus(uses, LOOP_EXIT_DISTANCE);
        after := Plus(after, LOOP_EXIT_DISTANCE);
      } else {
        assert after == Plus(after, 0) && uses == Plus(uses, 0);
      }
    }

    /** The join over the edges of a branch with several targets, none of which may be critical. */
    method OverEdges(dfg: Dfg, cfg: ControlFlowGraph, loops: LoopAnalysis,
            ghost c: Context, b: Block, jts: seq<JumpTable>)
      returns (ok: bool, uses: NextUseSet, after: NextUseSet)
      requires LoopsUsable(loops.loops, loops.tags) && c == Context(dfg, loops.loops, loops.tags)
      modifies this`liveIn
      ensures DefaultsOnly(old(liveIn), liveIn)
      ensures ok <==> forall t :: t in jts ==> HasOnePred(cfg.data, t)
      ensures ok ==> liveIn.Keys == old(liveIn).Keys + HeadsOf(jts)
      ensures ok ==> after == c.JoinEdges(old(liveIn), b, jts) && uses == c.JoinUses(old(liveIn), b, jts)
    {
      hide Join, Context.EdgeSet, Context.EdgeUses, DefaultsOnly, HeadsOf, Context.JoinEdges, Context.JoinUses;
      uses, after := map[], map[];
      ghost var L := liveIn;
      DefaultsNone(L);
      NoEdges(c, L, b, jts);
      var m := 0;
      while m < |jts|
        invariant 0 <= m <= |jts|
        invariant DefaultsOnly(L, liveIn) && liveIn.Keys == L.Keys + HeadsOf(jts[..m])
        invariant forall t :: t in jts[..m] ==> HasOnePred(cfg.data, t)
        invariant after == c.JoinEdges(L, b, jts[..m]) && uses == c.JoinUses(L, b, jts[..m])
      {
        var t := jts[m];
        assert jts[..m + 1] == jts[..m] + [t];
        if cfg.NumPredecessors(t.dest) != 1 {
          assert t in jts;
          return false, uses, after;
        }
        ghost var mid := liveIn;
        var edgeUses, edgeAfter := OverEdge(dfg, loops, c, b, t);
        EdgeSame(c, L, mid, b, t);
        DefaultsTrans(L, mid, liveIn);
        EdgesNext(c, L, b, jts, m);
        uses := UnionOf(uses, edgeUses);
        after := UnionOf(after, edgeAfter);
        m := m + 1;
      }
      assert jts[..|jts|] == jts;
      ok := true;
    }

    /** What is live after one instruction: over its edges, or at the next instruction. */
    method LiveAfter(dfg: Dfg, cfg: ControlFlowGraph, loops: LoopAnalysis,
            ghost c: Context, ghost L: Table, ghost O: Table, b: Block, k: nat)
      returns (ok: bool, uses: NextUseSet, after: NextUseSet)
      requires LoopsUsable(loops.loops, loops.tags) && c == Context(dfg, loops.loops, loops.tags)
      requires k < |dfg.Insts(b)| && Scanned(c, b, L, O, liveIn, liveOut, k + 1)
      modifies this`liveIn
      ensures DefaultsOnly(old(liveIn), liveIn)
      ensures ok <==> BranchOk(dfg, cfg.data, b, k)
      ensures ok ==> liveIn.Keys == old(liveIn).Keys + HeadsOf(dfg.Insts(b)[k].data.Targets())
      ensures ok ==> Computed(c, b, L, old(liveIn), k, uses, after)
    {
      hide Context.At, Context.After, Context.JoinEdges, Context.JoinUses, Context.EdgeSet, Context.EdgeUses,
           Scanned, DefaultsOnly, Minus, Plus, HasOnePred;
      ok, uses, after := true, map[], map[];
      ghost var L1 := liveIn;
      DefaultsNone(L1);
      var data := dfg.Insts(b)[k].data;
      match data.AnalyzeBranch() {
        case NotABranch =>
          if k + 1 < |dfg.Insts(b)| {
            ScannedNext(c, b, L, O, liveIn, liveOut, k + 1);
            after := Plus(liveIn[AtInst(Inst(b, k + 1))], 1);
            uses := Minus(after, dfg.Insts(b)[k + 1].results);
          }
        case SingleDest(t) =>
          uses, after := OverEdge(dfg, loops, c, b, t);
          SingleEdge(c, L1, b, t);
          assert data.Targets() == [t];
        case MultiDest(jts) =>
          assert data.Targets() == jts;
          ok, uses, after := OverEdges(dfg, cfg, loops, c, b, jts);
      }
    }

    /** One instruction: what is live after it, less what the next one defines, plus what it uses. */
    method ScanInst(dfg: Dfg, cfg: ControlFlowGraph, loops: LoopAnalysis,
            ghost c: Context, ghost L: Table, ghost O: Table, b: Block, k: nat)
      returns (ok: bool)
      requires LoopsUsable(loops.loops, loops.tags) && c == Context(dfg, loops.loops, loops.tags)
      requires k < |dfg.Insts(b)| && Scanned(c, b, L, O, liveIn, liveOut, k + 1)
      modifies this
      ensures ok <==> BranchOk(dfg, cfg.data, b, k)
      ensures ok ==> Scanned(c, b, L, O, liveIn, liveOut, k)
    {
      hide Context.At, Context.After, Scanned, DefaultsOnly, Defaults, Used, UsesOf, Computed, BranchOk, LoopsUsable;
      ghost var L1, O1 := liveIn, liveOut;
      var uses: NextUseSet, after: NextUseSet;
      ok, uses, after := LiveAfter(dfg, cfg, loops, c, L, O, b, k);
      if ok {
        var node := dfg.Insts(b)[k];
        ScanInstValue(c, b, L, O, L1, O1, k, uses, after);
        ghost var mid := liveIn;
        liveIn := liveIn[AtInst(Inst(b, k)) := Used(Defaults(uses, node.results), UsesOf(node.data))];
        liveOut := liveOut[AtInst(Inst(b, k)) := Defaults(after, node.results)];
        ScanNext(c, b, L, O, L1, O1, mid, liveIn, liveOut, k);
      }
    }

    /** Scans a block backwards and records what is live at its head; `changed` asks for another visit. */
    method VisitBlock(dfg: Dfg, cfg: ControlFlowGraph, loops: LoopAnalysis, ghost c: Context, b: Block)
            returns (ok: bool, changed: bool)
      requires LoopsUsable(loops.loops, loops.tags) && c == Context(dfg, loops.loops, loops.tags)
      modifies this
      ensures ok <==> Analyzable(dfg, cfg.data, b)
      ensures ok ==> Visited(c, b, old(liveIn), old(liveOut), liveIn, liveOut)
      ensures ok ==> (changed <==> AsksAgain(c, b, old(liveIn)))
    {
      hide Scanned, Visited, BranchOk, Context.At, Context.Out, LoopsUsable, Minus, Defaults;
      ghost var L, O := liveIn, liveOut;
      var insts := dfg.Insts(b);
      changed := false;
      if |insts| == 0 {
        return false, false;
      }
      var k := |insts|;
      NothingScanned(c, b, L, O);
      while k > 0
        invariant 0 <= k <= |insts|
        invariant Scanned(c, b, L, O, liveIn, liveOut, k)
        invariant forall j: nat {:trigger BranchOk(dfg, cfg.data, b, j)} ::
            k <= j < |insts| ==> BranchOk(dfg, cfg.data, b, j)
      {
        ok := ScanInst(dfg, cfg, loops, c, L, O, b, k - 1);
        if !ok {
          return;
        }
        k := k - 1;
      }
      ok := true;
      ScannedNext(c, b, L, O, liveIn, liveOut, 0);
      var header := Defaults(Minus(liveIn[AtInst(Inst(b, 0))], insts[0].results), dfg.Params(b));
      ScannedEnd(c, b, L, O, liveIn, liveOut, header);
      changed := AtBlock(b) !in liveIn || liveIn[AtBlock(b)] != header;
      liveOut := liveOut[AtBlock(b) := liveOut[AtInst(Inst(b, |insts| - 1))]];
      liveIn := liveIn[AtBlock(b) := header];
    }

    /** Works through the blocks in post-order, and again through those whose header has changed; gives
        up on a critical edge. */
    method Compute(dfg: Dfg, cfg: ControlFlowGraph, domtree: DominatorTree, loops: LoopAnalysis) returns (ok: bool)
      requires domtree.Describes(dfg) && Exact(dfg, cfg.data) && LoopsUsable(loops.loops, loops.tags)
      modifies this
      ensures ok <==> forall b: Block {:trigger Analyzable(dfg, cfg.data, b)} ::
          Reachable(GraphOf(dfg), b) ==> Analyzable(dfg, cfg.data, b)
      ensures ok ==> NextUsesKnown(Context(dfg, loops.loops, loops.tags), domtree.postorder, liveIn, liveOut)
    {
      hide *;
      liveIn := map[];
      liveOut := map[];
      var post := domtree.postorder;
      PostFacts(dfg, domtree);
      ghost var c := Context(dfg, loops.loops, loops.tags);
      ghost var m := ValuesBound(dfg);
      ghost var seen, done: nat, again: seq<nat> := 0, 0, [];
      var worklist := post;
      LiveBegin(c, post, m);
      while worklist != []
        invariant LiveState(c, post, m, liveIn, liveOut, seen, done)
        invariant 0 <= seen <= |post| && Queue(c, post, worklist, seen, done, again)
        invariant forall i: nat {:trigger post[i]} :: i < seen ==> Analyzable(dfg, cfg.data, post[i])
        decreases TableRank(liveIn, |dfg.blocks|, m), |worklist|
      {
        ghost var i, start := QueueNext(c, post, worklist, seen, done, again);
        LiveSkip(c, post, m, liveIn, liveOut, seen, done, start);
        var b: Block := worklist[0];
        ghost var L, O := liveIn, liveOut;
        var visited, changed := VisitBlock(dfg, cfg, loops, c, b);
        if !visited {
          GivesUp(dfg, cfg.data, post, i);
          return false;
        }
        LiveNext(c, post, m, L, O, seen, start, i, liveIn, liveOut);
        LiveRank(c, post, m, L, O, seen, start, b, liveIn, liveOut, |dfg.blocks|);
        if seen < |post| {
          FirstAsksAgain(c, post, m, L, O, seen, start, liveIn, liveOut);
        }
        again := QueueStep(c, post, worklist, seen, done, again, i, start, changed);
        worklist := worklist[1..] + if changed then [b] else [];
        done := if seen == |post| && i == start then start + 1 else start;
        seen := if seen == i then seen + 1 else seen;
      }
      QueueEnd(c, post, seen, done, again);
      LiveSkip(c, post, m, liveIn, liveOut, seen, done, |post|);
      LiveEnd(c, post, m, liveIn, liveOut);
      AllAnalyzable(dfg, cfg.data, post);
      ok := true;
    }
  }

  lemma NothingAgrees(vs: set<Value>)
    ensures AgreeOff(map[], map[], vs)
  {
  }

  lemma DefaultsNone(L: Table)
    ensures DefaultsOnly(L, L)
  {
  }

  /** Scanning instruction `k` after the later ones. */
  lemma {:induction false} ScanNext(c: Context, b: Block, L: Table, O: Table, L1: Table, O1: Table, mid: Table,
          L2: Table, O2: Table, k: nat)
    requires k < |c.dfg.Insts(b)| && Scanned(c, b, L, O, L1, O1, k + 1) && DefaultsOnly(L1, mid)
    requires mid.Keys == L1.Keys + HeadsOf(c.dfg.Insts(b)[k].data.Targets())
    requires L2 == mid[AtInst(Inst(b, k)) := c.At(L, b, k)] && O2 == O1[AtInst(Inst(b, k)) := c.Out(L, b, k)]
    ensures Scanned(c, b, L, O, L2, O2, k)
  {
    hide Context.At, Context.Out, Records, SameAt, SameHeaders, InstOf, DefaultsOnly, TargetFrom, HeadsOf;
    forall x: ProgramPoint
      ensures x.AtInst? && !InstOf(c.dfg, b, x) ==> SameAt(L, L2, x)
      ensures !InstOf(c.dfg, b, x) ==> SameAt(O, O2, x)
    {
      if !InstOf(c.dfg, b, x) {
        assert SameAt(O, O1, x) && (x.AtInst? ==> SameAt(L, L1, x));
        NotHere(c.dfg, b, k, x);
        if x.AtInst? {
          SameAtNext(L, L1, mid, L2, AtInst(Inst(b, k)), c.At(L, b, k), x);
        }
        DefaultsNone(O1);
        SameAtNext(O, O1, O1, O2, AtInst(Inst(b, k)), c.Out(L, b, k), x);
      }
    }
    SameHeadersNext(L, L1, mid, L2, Inst(b, k), c.At(L, b, k));
    forall s: Block ensures AtBlock(s) in L2 <==> AtBlock(s) in L || TargetFrom(c.dfg, b, k, s) {
      TargetsNext(c.dfg, b, k, s);
      assert AtBlock(s) in L1 <==> AtBlock(s) in L || TargetFrom(c.dfg, b, k + 1, s);
    }
    forall j: nat | k <= j < |c.dfg.Insts(b)|
      ensures Records(L2, AtInst(Inst(b, j)), c.At(L, b, j)) && Records(O2, AtInst(Inst(b, j)), c.Out(L, b, j))
    {
      if j != k {
        assert Records(L1, AtInst(Inst(b, j)), c.At(L, b, j)) && Records(O1, AtInst(Inst(b, j)), c.Out(L, b, j));
      }
      DefaultsNone(O1);
      RecordsNext(b, L1, mid, L2, c.At(L, b, k), k, j, c.At(L, b, j));
      RecordsNext(b, O1, O1, O2, c.Out(L, b, k), k, j, c.Out(L, b, j));
    }
  }

  lemma TargetsNext(dfg: Dfg, b: Block, k: nat, s: Block)
    requires k < |dfg.Insts(b)|
    ensures TargetFrom(dfg, b, k, s) <==>
            AtBlock(s) in HeadsOf(dfg.Insts(b)[k].data.Targets()) || TargetFrom(dfg, b, k + 1, s)
  {
    if AtBlock(s) in HeadsOf(dfg.Insts(b)[k].data.Targets()) {
      var t :| t in dfg.Insts(b)[k].data.Targets() && t.dest == s;
      assert BranchesFrom(dfg, b, k, t);
    }
    if TargetFrom(dfg, b, k, s) {
      var j: nat, t :| k <= j && BranchesFrom(dfg, b, j, t) && t.dest == s;
      assert j == k ==> AtBlock(t.dest) in HeadsOf(dfg.Insts(b)[k].data.Targets());
    }
  }

  lemma NotHere(dfg: Dfg, b: Block, k: nat, x: ProgramPoint)
    requires k < |dfg.Insts(b)| && !InstOf(dfg, b, x)
    ensures x != AtInst(Inst(b, k))
  {
  }

  lemma SameAtNext(m: Table, m1: Table, mid: Table, m2: Table, at: ProgramPoint, s: NextUseSet, x: ProgramPoint)
    requires DefaultsOnly(m1, mid) && m2 == mid[at := s] && x != at && (x.AtInst? || mid == m1) && SameAt(m, m1, x)
    ensures SameAt(m, m2, x)
  {
  }

  lemma SameHeadersNext(L: Table, L1: Table, mid: Table, L2: Table, i: Inst, s: NextUseSet)
    requires SameHeaders(L, L1) && DefaultsOnly(L1, mid) && L2 == mid[AtInst(i) := s]
    ensures SameHeaders(L, L2)
  {
    forall s: Block ensures Header(L2, s) == Header(L, s) {
      assert Header(L, s) == Header(L1, s);
    }
  }

  lemma RecordsNext(b: Block, m: Table, mid: Table, m': Table, s: NextUseSet, k: nat, j: nat, r: NextUseSet)
    requires DefaultsOnly(m, mid) && m' == mid[AtInst(Inst(b, k)) := s]
    requires if j == k then r == s else Records(m, AtInst(Inst(b, j)), r)
    ensures Records(m', AtInst(Inst(b, j)), r)
  {
  }

  lemma {:induction false} ScannedNext(c: Context, b: Block, L: Table, O: Table, L1: Table, O1: Table, k: nat)
    requires k < |c.dfg.Insts(b)| && Scanned(c, b, L, O, L1, O1, k)
    ensures Records(L1, AtInst(Inst(b, k)), c.At(L, b, k)) && Records(O1, AtInst(Inst(b, k)), c.Out(L, b, k))
  {
    hide Context.At, Context.Out;
  }

  ghost predicate Computed(c: Context, b: Block, L: Table, L1: Table, k: nat, uses: NextUseSet, after: NextUseSet)
    requires k < |c.dfg.Insts(b)|
  {
    if !c.Falls(b, k) then
      && after == c.JoinEdges(L1, b, c.dfg.Insts(b)[k].data.Targets())
      && uses == c.JoinUses(L1, b, c.dfg.Insts(b)[k].data.Targets())
    else if k + 1 < |c.dfg.Insts(b)| then
      after == Plus(c.At(L, b, k + 1), 1) && uses == Minus(after, c.dfg.Insts(b)[k + 1].results)
    else
      after == map[] && uses == map[]
  }

  /** What is computed for one instruction, by the kind of instruction. */
  lemma {:induction false} ScanInstValue(c: Context, b: Block, L: Table, O: Table, L1: Table, O1: Table, k: nat,
          uses: NextUseSet, after: NextUseSet)
    requires k < |c.dfg.Insts(b)| && Scanned(c, b, L, O, L1, O1, k + 1)
    requires Computed(c, b, L, L1, k, uses, after)
    ensures after == c.After(L, b, k)
    ensures Used(Defaults(uses, c.Results(b, k)), UsesOf(c.dfg.Insts(b)[k].data)) == c.At(L, b, k)
  {
    hide Scanned, Used, Defaults, AgreeOff, Context.EdgeSet, Plus;
    var data := c.dfg.Insts(b)[k].data;
    ScannedSame(c, b, L, O, L1, O1, k + 1);
    if c.Falls(b, k) {
      assert k + 1 >= |c.dfg.Insts(b)| ==> Minus(map[], c.Results(b, k + 1)) == map[];
    } else {
      c.EdgesSame(L, L1, b, data.Targets());
      EdgesAgree(c, L1, b, data.Targets());
      AgreeUsed(uses, after, ArgsOf(data.Targets()), c.Results(b, k), UsesOf(data));
    }
  }

  lemma ScannedSame(c: Context, b: Block, L: Table, O: Table, L1: Table, O1: Table, k: nat)
    requires Scanned(c, b, L, O, L1, O1, k)
    ensures SameHeaders(L, L1)
  {
  }

  lemma {:induction false} SingleEdge(c: Context, L: Table, b: Block, t: JumpTable)
    ensures c.JoinEdges(L, b, [t]) == c.EdgeSet(L, b, t) && c.JoinUses(L, b, [t]) == c.EdgeUses(L, b, t)
  {
    hide Context.EdgeSet, Context.EdgeUses;
    assert [t][..0] == [];
    assert Join(map[], c.EdgeSet(L, b, t)) == c.EdgeSet(L, b, t);
    assert Join(map[], c.EdgeUses(L, b, t)) == c.EdgeUses(L, b, t);
  }

  lemma NothingScanned(c: Context, b: Block, L: Table, O: Table)
    ensures Scanned(c, b, L, O, L, O, |c.dfg.Insts(b)|)
  {
  }

  /** The whole block has been scanned; only its header is missing. */
  lemma {:induction false} ScannedEnd(c: Context, b: Block, L: Table, O: Table,
          L1: Table, O1: Table, header: NextUseSet)
    requires Scanned(c, b, L, O, L1, O1, 0) && |c.dfg.Insts(b)| > 0
    requires header == Defaults(Minus(c.At(L, b, 0), c.dfg.Insts(b)[0].results), c.dfg.Params(b))
    ensures header == c.HeaderSet(L, b) && Header(L1, b) == Header(L, b)
    ensures AtBlock(b) in L1 <==> AtBlock(b) in L || TargetFrom(c.dfg, b, 0, b)
    ensures AtInst(Inst(b, |c.dfg.Insts(b)| - 1)) in O1
    ensures Visited(c, b, L, O, L1[AtBlock(b) := header], O1[AtBlock(b) := O1[AtInst(Inst(b, |c.dfg.Insts(b)| - 1))]])
  {
    hide Context.At, Context.Out, TargetFrom;
    var last := Inst(b, |c.dfg.Insts(b)| - 1);
    assert Records(O1, AtInst(last), c.Out(L, b, last.pos));
    var L2, O2 := L1[AtBlock(b) := header], O1[AtBlock(b) := O1[AtInst(last)]];
    forall x: ProgramPoint | x.AtInst? && !InstOf(c.dfg, b, x) ensures SameAt(L, L2, x) {
      assert SameAt(L, L1, x);
    }
    forall x: ProgramPoint | !InstOf(c.dfg, b, x) && x != AtBlock(b) ensures SameAt(O, O2, x) {
      assert SameAt(O, O1, x);
    }
    forall s: Block | s != b ensures Header(L2, s) == Header(L, s) {
      assert Header(L, s) == Header(L1, s);
    }
    forall s: Block ensures AtBlock(s) in L2 <==> AtBlock(s) in L || s == b || TargetFrom(c.dfg, b, 0, s) {
      assert AtBlock(s) in L1 <==> AtBlock(s) in L || TargetFrom(c.dfg, b, 0, s);
    }
    forall j: nat | j < |c.dfg.Insts(b)|
      ensures Records(L2, AtInst(Inst(b, j)), c.At(L, b, j)) && Records(O2, AtInst(Inst(b, j)), c.Out(L, b, j))
    {
      assert Records(L1, AtInst(Inst(b, j)), c.At(L, b, j));
    }
  }

  // What the tables mean

  /** The last point of `x`'s block, if `x` is the head of one: the exit of the block counts as after its head. */
  function Exit(dfg: Dfg, x: ProgramPoint): ProgramPoint {
    match x
    case AtBlock(b) => if |dfg.Insts(b)| > 0 then AtInst(Inst(b, |dfg.Insts(b)| - 1)) else x
    case AtInst(_) => x
  }

  ghost predicate InSound(c: Context, L: Table, x: ProgramPoint) {
    x in L ==> c.Sound(x, L[x])
  }

  ghost predicate OutSound(c: Context, O: Table, x: ProgramPoint) {
    x in O ==> c.SoundAfter(Exit(c.dfg, x), O[x])
  }

  /** Nothing that lies ahead on a forward path, or on one that retreats once, has been missed at `x` or after it;
      what is defined at `x` is recorded, used or not. */
  ghost predicate KnownAt(c: Context, post: seq<Block>, L: Table, O: Table, x: ProgramPoint, back: bool) {
    && x in L && x in O && c.Complete(post, x, L[x], back) && c.CompleteAfter(post, Exit(c.dfg, x), O[x], back)
    && forall v {:trigger c.DefinedAt(x, v)} :: c.DefinedAt(x, v) ==> v in L[x] && (x.AtInst? ==> v in O[x])
  }

  ghost predicate Recorded(c: Context, post: seq<Block>, L: Table, O: Table, b: Block, back: bool) {
    && KnownAt(c, post, L, O, AtBlock(b), back)
    && (forall k: nat {:trigger Inst(b, k)} ::
          k < |c.dfg.Insts(b)| ==> KnownAt(c, post, L, O, AtInst(Inst(b, k)), back))
  }

  /** A header is never better than another visit of its block would make it. */
  ghost predicate Growing(c: Context, L: Table, b: Block) {
    AtBlock(b) in L && |c.dfg.Insts(b)| > 0 ==> Improves(L[AtBlock(b)], c.HeaderSet(L, b))
  }

  /** A block not visited yet has no header, or an empty one if an edge retreats to it. */
  ghost predicate Untouched(c: Context, post: seq<Block>, L: Table, b: Block) {
    Header(L, b) == map[] && (AtBlock(b) in L ==> c.RetreatTarget(post, b))
  }

  /** Of the blocks at positions below `done`, those visited again know what lies beyond one retreating edge. */
  ghost predicate KnownTwice(c: Context, post: seq<Block>, L: Table, O: Table, done: nat) {
    forall i: nat {:trigger c.Revisited(post, post[i])} ::
      i < done && i < |post| && c.Revisited(post, post[i]) ==> Recorded(c, post, L, O, post[i], true)
  }

  ghost predicate LiveState(c: Context, post: seq<Block>, m: nat, L: Table, O: Table, seen: nat, done: nat) {
    && NoDup(post) && seen <= |post| && ValuesBelow(c.dfg, m) && HeadersBelow(L, m)
    && (forall x: ProgramPoint {:trigger InSound(c, L, x)} :: InSound(c, L, x))
    && (forall x: ProgramPoint {:trigger OutSound(c, O, x)} :: OutSound(c, O, x))
    && (forall b: Block {:trigger Growing(c, L, b)} :: Growing(c, L, b))
    && (forall i: nat {:trigger Recorded(c, post, L, O, post[i], false)} ::
          i < seen ==> Recorded(c, post, L, O, post[i], false))
    && (forall i: nat {:trigger Untouched(c, post, L, post[i])} ::
          seen <= i < |post| ==> Untouched(c, post, L, post[i]))
    && (done > 0 ==> seen == |post|) && KnownTwice(c, post, L, O, done)
  }

  /** Everywhere in the reachable blocks: recorded distances are weights of paths to uses; no use on a forward
      path is missed or put too far; and in the blocks visited again that holds of paths that retreat once, too. */
  ghost predicate NextUsesKnown(c: Context, post: seq<Block>, L: Table, O: Table) {
    && (forall x: ProgramPoint {:trigger InSound(c, L, x)} :: InSound(c, L, x))
    && (forall x: ProgramPoint {:trigger OutSound(c, O, x)} :: OutSound(c, O, x))
    && (forall x: ProgramPoint {:trigger KnownAt(c, post, L, O, x, false)} ::
          x.PPBlock() in post && c.dfg.HasPoint(x) ==> KnownAt(c, post, L, O, x, false))
    && (forall x: ProgramPoint {:trigger KnownAt(c, post, L, O, x, true)} ::
          x.PPBlock() in post && c.dfg.HasPoint(x) && c.Revisited(post, x.PPBlock()) ==>
            KnownAt(c, post, L, O, x, true))
  }

  lemma LiveBegin(c: Context, post: seq<Block>, m: nat)
    requires IsPostOf(c.dfg, post) && ValuesBelow(c.dfg, m)
    ensures LiveState(c, post, m, map[], map[], 0, 0) && Queue(c, post, post, 0, 0, [])
  {
    hide ValuesBelow, NoDup;
  }

  lemma StateHeadersSound(c: Context, L: Table)
    requires forall x: ProgramPoint {:trigger InSound(c, L, x)} :: InSound(c, L, x)
    ensures c.HeadersSound(L)
  {
    hide Context.HasPath;
    forall b: Block ensures c.Sound(AtBlock(b), Header(L, b)) {
      assert InSound(c, L, AtBlock(b));
    }
  }

  lemma VisitSound(c: Context, b: Block, L: Table, O: Table, L': Table, O': Table, x: ProgramPoint)
    requires forall y: ProgramPoint {:trigger InSound(c, L, y)} :: InSound(c, L, y)
    requires forall y: ProgramPoint {:trigger OutSound(c, O, y)} :: OutSound(c, O, y)
    requires Visited(c, b, L, O, L', O')
    ensures InSound(c, L', x) && OutSound(c, O', x)
  {
    hide Context.Sound, Context.SoundAfter, Context.HeaderSet, Context.At, Context.Out, Context.HeadersSound;
    StateHeadersSound(c, L);
    assert InSound(c, L, x) && OutSound(c, O, x);
    if InstOf(c.dfg, b, x) {
      c.ScanSound(L, b, x.inst.pos);
      assert x == AtInst(Inst(b, x.inst.pos));
    } else if x == AtBlock(b) {
      c.HeaderSound(L, b);
      c.ScanSound(L, b, |c.dfg.Insts(b)| - 1);
    } else {
      assert SameAt(O, O', x);
      if x.AtInst? {
        assert SameAt(L, L', x);
      } else {
        assert Header(L', x.block) == Header(L, x.block);
        EmptySound(c, x);
      }
    }
  }

  lemma EmptySound(c: Context, x: ProgramPoint)
    ensures c.Sound(x, map[])
  {
  }

  lemma VisitImproves(c: Context, b: Block, L: Table, O: Table, L': Table, O': Table)
    requires Visited(c, b, L, O, L', O') && Growing(c, L, b)
    ensures HeadersImprove(L, L') && HeaderUpdated(L, L', b)
  {
    hide Context.HeaderSet, Context.At, Context.Out;
  }

  lemma VisitGrowing(c: Context, b: Block, L: Table, O: Table, L': Table, O': Table, x: Block)
    requires Visited(c, b, L, O, L', O') && Growing(c, L, b) && Growing(c, L, x)
    ensures Growing(c, L', x)
  {
    hide Context.HeaderSet, Context.At, Context.Out, HeadersImprove;
    VisitImproves(c, b, L, O, L', O');
    if |c.dfg.Insts(x)| > 0 {
      c.HeaderMonotone(L, L', x);
      if x != b {
        assert Header(L', x) == Header(L, x);
      }
    }
  }

  lemma VisitBelow(c: Context, b: Block, L: Table, O: Table, L': Table, O': Table, m: nat)
    requires Visited(c, b, L, O, L', O') && ValuesBelow(c.dfg, m) && HeadersBelow(L, m)
    ensures HeadersBelow(L', m)
  {
    hide Context.HeaderSet, Context.At, Context.Out, Below;
    c.HeaderBelow(L, b, m);
    forall s: Block ensures Below(Header(L', s), m) {
      assert Below(Header(L, s), m);
      if s != b {
        assert Header(L', s) == Header(L, s);
      }
    }
  }

  lemma EarlierComplete(c: Context, post: seq<Block>, m: nat, L: Table, O: Table, seen: nat, done: nat, i: nat)
    requires LiveState(c, post, m, L, O, seen, done) && i <= seen && i < |post|
    ensures c.TargetsComplete(post, L, post[i], false)
    ensures seen == |post| && i <= done ==> c.TargetsComplete(post, L, post[i], true)
  {
    hide Context.Complete, Context.CompleteAfter, Context.Revisited, Growing, InSound, OutSound, HeadersBelow,
         ValuesBelow, Untouched;
    forall s: Block | Earlier(post, s, post[i])
      ensures c.HeaderKnows(post, L, s, false)
      ensures i <= done && c.Revisited(post, s) ==> c.HeaderKnows(post, L, s, true)
    {
      var h: nat, j: nat :| h < j < |post| && post[h] == s && post[j] == post[i];
      assert j == i;
      assert Recorded(c, post, L, O, post[h], false);
      assert i <= done && c.Revisited(post, post[h]) ==> Recorded(c, post, L, O, post[h], true);
    }
    if seen == |post| {
      forall s: Block | s in post ensures c.HeaderKnows(post, L, s, false) {
        var h: nat :| h < |post| && post[h] == s;
        assert Recorded(c, post, L, O, post[h], false);
      }
    }
  }

  lemma VisitRecorded(c: Context, post: seq<Block>, L: Table, O: Table, b: Block, L': Table, O': Table, a: Block,
          back: bool)
    requires Visited(c, b, L, O, L', O')
    requires if a == b then c.TargetsComplete(post, L, b, back) else Recorded(c, post, L, O, a, back)
    ensures Recorded(c, post, L', O', a, back)
  {
    hide Context.Complete, Context.CompleteAfter, Context.TargetsComplete, Context.HeaderSet, Context.At, Context.Out,
         TargetFrom;
    if a == b {
      c.HeaderComplete(post, L, b, back);
      c.DefsRecorded(L, b, 0);
      c.ScanComplete(post, L, b, |c.dfg.Insts(b)| - 1, back);
      forall k: nat | k < |c.dfg.Insts(b)| ensures KnownAt(c, post, L', O', AtInst(Inst(b, k)), back) {
        c.ScanComplete(post, L, b, k, back);
        c.DefsRecorded(L, b, k);
      }
    } else {
      assert Header(L', a) == Header(L, a) && SameAt(O, O', AtBlock(a));
      forall k: nat | k < |c.dfg.Insts(a)| ensures KnownAt(c, post, L', O', AtInst(Inst(a, k)), back) {
        assert SameAt(L, L', AtInst(Inst(a, k))) && SameAt(O, O', AtInst(Inst(a, k)));
      }
    }
  }

  /** Before its first visit, a block is touched only by an edge that retreats to it. */
  lemma VisitUntouched(c: Context, post: seq<Block>, L: Table, O: Table, i: nat, L': Table, O': Table, j: nat)
    requires NoDup(post) && i < j < |post| && Visited(c, post[i], L, O, L', O') && Untouched(c, post, L, post[j])
    ensures Untouched(c, post, L', post[j])
  {
    hide Context.HeaderSet, Context.At, Context.Out;
    var s := post[j];
    assert Header(L', s) == Header(L, s);
    if AtBlock(s) in L' && AtBlock(s) !in L {
      var k: nat, t :| BranchesFrom(c.dfg, post[i], k, t) && t.dest == s;
      NotEarlier(post, i, j);
      assert c.RetreatTarget(post, s);
    }
  }

  lemma NotEarlier(post: seq<Block>, i: nat, j: nat)
    requires NoDup(post) && i <= j < |post|
    ensures post[i] in post && !Earlier(post, post[j], post[i])
  {
  }

  /** One visit keeps everything, and adds its block to those recorded. */
  lemma LiveNext(c: Context, post: seq<Block>, m: nat, L: Table, O: Table, seen: nat, done: nat, i: nat,
          L': Table, O': Table)
    requires LiveState(c, post, m, L, O, seen, done) && i < |post| && (if seen < |post| then i == seen else i <= done)
    requires Visited(c, post[i], L, O, L', O')
    ensures LiveState(c, post, m, L', O', if seen == i then seen + 1 else seen,
                      if seen == |post| && i == done then done + 1 else done)
  {
    hide Recorded, Growing, InSound, OutSound, HeadersBelow, ValuesBelow, Visited, Untouched, Context.TargetsComplete,
         Context.Revisited;
    var b := post[i];
    EarlierComplete(c, post, m, L, O, seen, done, i);
    VisitBelow(c, b, L, O, L', O', m);
    forall x: ProgramPoint ensures InSound(c, L', x) && OutSound(c, O', x) {
      VisitSound(c, b, L, O, L', O', x);
    }
    forall x: Block ensures Growing(c, L', x) {
      VisitGrowing(c, b, L, O, L', O', x);
    }
    forall j: nat | j <= seen && j < |post| && (j < seen || j == i) ensures Recorded(c, post, L', O', post[j], false) {
      assert j < seen ==> Recorded(c, post, L, O, post[j], false);
      VisitRecorded(c, post, L, O, b, L', O', post[j], false);
    }
    forall j: nat | seen <= j < |post| && j != i ensures Untouched(c, post, L', post[j]) {
      assert Untouched(c, post, L, post[j]);
      VisitUntouched(c, post, L, O, i, L', O', j);
    }
    if seen == |post| {
      forall j: nat | j <= done && j < |post| && (j < done || j == i) && c.Revisited(post, post[j])
        ensures Recorded(c, post, L', O', post[j], true)
      {
        VisitRecorded(c, post, L, O, b, L', O', post[j], true);
      }
    }
  }

  /** Positions without blocks to be visited again can be passed over. */
  lemma LiveSkip(c: Context, post: seq<Block>, m: nat, L: Table, O: Table, seen: nat, done: nat, done': nat)
    requires LiveState(c, post, m, L, O, seen, done) && done <= done' && (done < done' ==> seen == |post|)
    requires forall i: nat {:trigger c.Revisited(post, post[i])} ::
        done <= i < done' && i < |post| ==> !c.Revisited(post, post[i])
    ensures LiveState(c, post, m, L, O, seen, done')
  {
    hide Recorded, Growing, InSound, OutSound, HeadersBelow, ValuesBelow, Untouched, Context.Revisited;
  }

  lemma SelfRetreats(c: Context, post: seq<Block>, i: nat)
    requires NoDup(post) && i < |post| && TargetFrom(c.dfg, post[i], 0, post[i])
    ensures c.RetreatTarget(post, post[i])
  {
    var k: nat, t :| BranchesFrom(c.dfg, post[i], k, t) && t.dest == post[i];
    NotEarlier(post, i, i);
  }

  /** The first visit of a block that is to be visited again asks for that. */
  lemma FirstAsksAgain(c: Context, post: seq<Block>, m: nat, L: Table, O: Table, seen: nat, done: nat,
          L': Table, O': Table)
    requires LiveState(c, post, m, L, O, seen, done) && seen < |post| && Visited(c, post[seen], L, O, L', O')
    ensures |c.dfg.Insts(post[seen])| > 0
    ensures c.Revisited(post, post[seen]) ==> AsksAgain(c, post[seen], L)
  {
    hide Recorded, Growing, InSound, OutSound, HeadersBelow, ValuesBelow, Context.At, KnownTwice,
         Context.TargetsComplete;
    var b := post[seen];
    EarlierComplete(c, post, m, L, O, seen, done, seen);
    assert Untouched(c, post, L, b);
    if !c.RetreatTarget(post, b) {
      if TargetFrom(c.dfg, b, 0, b) {
        SelfRetreats(c, post, seen);
      }
    } else if |c.dfg.Params(b)| > 0 {
      assert c.dfg.Params(b)[0] in c.HeaderSet(L, b);
    } else if c.HasForwardUse(post, AtBlock(b)) {
      var v, q :| c.ForwardUse(post, AtBlock(b), v, q);
      c.HeaderComplete(post, L, b, false);
      assert c.UseAhead(post, AtBlock(b), v, q, false);
      assert v in c.HeaderSet(L, b);
    }
  }

  lemma {:induction false} LiveRank(c: Context, post: seq<Block>, m: nat, L: Table, O: Table, seen: nat, done: nat,
          b: Block, L': Table, O': Table, n: nat)
    requires LiveState(c, post, m, L, O, seen, done) && IsPostOf(c.dfg, post) && b in post
    requires Visited(c, b, L, O, L', O') && n == |c.dfg.blocks|
    ensures TableRank(L', n, m) <= TableRank(L, n, m)
    ensures AsksAgain(c, b, L) ==> TableRank(L', n, m) < TableRank(L, n, m)
  {
    hide Recorded, Untouched, KnownTwice, Growing, InSound, OutSound, ValuesBelow, NoDup, TableRank,
         Context.HeaderSet, Context.At, Context.Out, HeaderUpdated, Below;
    VisitImproves(c, b, L, O, L', O');
    VisitBelow(c, b, L, O, L', O', m);
    assert Below(Header(L', b), m);
    TableRankFalls(L, L', b, n, m);
  }

  lemma LiveEnd(c: Context, post: seq<Block>, m: nat, L: Table, O: Table)
    requires LiveState(c, post, m, L, O, |post|, |post|)
    ensures NextUsesKnown(c, post, L, O)
  {
    hide KnownAt, Growing, InSound, OutSound, HeadersBelow, ValuesBelow, NoDup, Untouched, Context.Revisited;
    forall x: ProgramPoint | x.PPBlock() in post && c.dfg.HasPoint(x)
      ensures KnownAt(c, post, L, O, x, false)
      ensures c.Revisited(post, x.PPBlock()) ==> KnownAt(c, post, L, O, x, true)
    {
      var i: nat :| i < |post| && post[i] == x.PPBlock();
      assert Recorded(c, post, L, O, post[i], false);
      assert c.Revisited(post, post[i]) ==> Recorded(c, post, L, O, post[i], true);
      if x.AtInst? {
        assert x == AtInst(Inst(post[i], x.inst.pos));
      }
    }
  }

  // The queue

  /** First the blocks not seen yet; then, in the same order and at positions `again` from `done` on, blocks to be
      visited a second time, with all that must be; then any blocks. */
  ghost predicate Queue(c: Context, post: seq<Block>, worklist: seq<Block>, seen: nat, done: nat, again: seq<nat>) {
    && done <= seen <= |post| && (done > 0 ==> seen == |post|)
    && (forall k {:trigger again[k]} :: 0 <= k < |again| ==> done <= again[k] < seen)
    && (forall j, k :: 0 <= j < k < |again| ==> again[j] < again[k])
    && (forall i: nat {:trigger c.Revisited(post, post[i])} ::
          done <= i < seen && c.Revisited(post, post[i]) ==> i in again)
    && InLine(post, worklist, seen, again)
  }

  ghost predicate InLine(post: seq<Block>, worklist: seq<Block>, seen: nat, again: seq<nat>)
    requires seen <= |post|
  {
    var r := |post| - seen;
    && r + |again| <= |worklist| && (r > 0 ==> r + |again| == |worklist|)
    && (forall k: nat :: k < r ==> worklist[k] == post[seen + k])
    && (forall k: nat :: k < |again| ==> again[k] < |post| && worklist[r + k] == post[again[k]])
    && (forall k: nat :: r + |again| <= k < |worklist| ==> worklist[k] in post)
  }

  /** The position of the next block, and how far the second visits have come. */
  lemma QueueNext(c: Context, post: seq<Block>, worklist: seq<Block>, seen: nat, done: nat, again: seq<nat>)
    returns (i: nat, done': nat)
    requires Queue(c, post, worklist, seen, done, again) && |worklist| > 0
    ensures i < |post| && post[i] == worklist[0] && done <= done' <= |post| && (done < done' ==> seen == |post|)
    ensures if seen < |post| then i == seen else i <= done'
    ensures seen == |post| ==> if |again| > 0 then i == again[0] == done' else done' == |post|
    ensures forall j: nat {:trigger c.Revisited(post, post[j])} ::
        done <= j < done' && j < |post| ==> !c.Revisited(post, post[j])
  {
    hide Context.Revisited;
    done' := done;
    if seen < |post| {
      i := seen;
    } else if |again| > 0 {
      i, done' := again[0], again[0];
    } else {
      done' := |post|;
      i :| i < |post| && post[i] == worklist[0];
    }
  }

  lemma QueueStep(c: Context, post: seq<Block>, worklist: seq<Block>, seen: nat, done: nat, again: seq<nat>,
          i: nat, done': nat, changed: bool)
    returns (again': seq<nat>)
    requires Queue(c, post, worklist, seen, done, again) && |worklist| > 0 && i < |post| && post[i] == worklist[0]
    requires if seen < |post| then i == seen && done' == done
             else if |again| > 0 then i == again[0] == done' else i < done' == |post|
    requires seen < |post| && c.Revisited(post, post[seen]) ==> changed
    ensures Queue(c, post, worklist[1..] + if changed then [worklist[0]] else [],
                  if seen < |post| then seen + 1 else seen,
                  if seen == |post| && i == done' then done' + 1 else done', again')
  {
    hide Context.Revisited, InLine;
    if seen < |post| {
      again' := if changed then again + [seen] else again;
      FirstInLine(post, worklist, seen, again, changed);
    } else if |again| > 0 {
      again' := again[1..];
      SecondInLine(post, worklist, again, changed);
      forall j: nat | done' + 1 <= j < seen && c.Revisited(post, post[j]) ensures j in again' {
        assert again == [again[0]] + again';
      }
    } else {
      again' := [];
      LaterInLine(post, worklist, changed);
    }
  }

  lemma FirstInLine(post: seq<Block>, worklist: seq<Block>, seen: nat, again: seq<nat>, changed: bool)
    requires seen < |post| && InLine(post, worklist, seen, again) && (forall k: nat :: k < |again| ==> again[k] < seen)
    ensures |worklist| > 0
    ensures InLine(post, worklist[1..] + if changed then [worklist[0]] else [], seen + 1,
                   if changed then again + [seen] else again)
  {
  }

  lemma SecondInLine(post: seq<Block>, worklist: seq<Block>, again: seq<nat>, changed: bool)
    requires InLine(post, worklist, |post|, again) && |again| > 0
    ensures |worklist| > 0
    ensures InLine(post, worklist[1..] + if changed then [worklist[0]] else [], |post|, again[1..])
  {
    assert post[again[0]] in post;
  }

  lemma LaterInLine(post: seq<Block>, worklist: seq<Block>, changed: bool)
    requires InLine(post, worklist, |post|, []) && |worklist| > 0
    ensures InLine(post, worklist[1..] + if changed then [worklist[0]] else [], |post|, [])
  {
  }

  lemma QueueEnd(c: Context, post: seq<Block>, seen: nat, done: nat, again: seq<nat>)
    requires Queue(c, post, [], seen, done, again)
    ensures seen == |post| && done <= |post|
    ensures forall j: nat {:trigger c.Revisited(post, post[j])} ::
        done <= j < |post| ==> !c.Revisited(post, post[j])
  {
    hide Context.Revisited;
  }

  ghost predicate IsPostOf(dfg: Dfg, post: seq<Block>) {
    && NoDup(post) && (forall b: Block :: b in post <==> Reachable(GraphOf(dfg), b))
    && (forall i :: 0 <= i < |post| ==> post[i] < |dfg.blocks|)
  }

  lemma PostFacts(dfg: Dfg, domtree: DominatorTree)
    requires domtree.Describes(dfg)
    ensures IsPostOf(dfg, domtree.postorder)
  {
    hide Reachable;
    forall i | 0 <= i < |domtree.postorder| ensures domtree.postorder[i] < |dfg.blocks| {
      assert Reachable(GraphOf(dfg), domtree.postorder[i]);
      ReachableInRange(GraphOf(dfg), domtree.postorder[i]);
    }
  }

  lemma GivesUp(dfg: Dfg, data: CfgData, post: seq<Block>, i: nat)
    requires IsPostOf(dfg, post) && i < |post| && !Analyzable(dfg, data, post[i])
    ensures exists b: Block {:trigger Analyzable(dfg, data, b)} ::
        Reachable(GraphOf(dfg), b) && !Analyzable(dfg, data, b)
  {
    hide Analyzable, Reachable;
    assert post[i] in post;
  }

  lemma AllAnalyzable(dfg: Dfg, data: CfgData, post: seq<Block>)
    requires IsPostOf(dfg, post) && forall i: nat {:trigger post[i]} :: i < |post| ==> Analyzable(dfg, data, post[i])
    ensures forall b: Block {:trigger Analyzable(dfg, data, b)} ::
        Reachable(GraphOf(dfg), b) ==> Analyzable(dfg, data, b)
  {
    hide Analyzable, Reachable;
  }

  // Consequences

  /** After a point, what lies ahead of the next one is known; of the points in the blocks entered next, only the
      parameters are not. */
  lemma {:induction false} LiveOutKnown(c: Context, post: seq<Block>, L: Table, O: Table,
          x: ProgramPoint, y: ProgramPoint, v: Value, q: seq<ProgramPoint>)
    requires NextUsesKnown(c, post, L, O) && x.PPBlock() in post && c.dfg.HasPoint(x)
    requires c.Steps(Exit(c.dfg, x), y) && c.ForwardStep(post, Exit(c.dfg, x), y) && c.ForwardUse(post, y, v, q)
    requires y.AtBlock? ==> v !in c.dfg.Params(y.block)
    ensures x in O && c.Within(O[x], v, c.StepWeight(Exit(c.dfg, x), y) + c.Weight(q))
  {
    hide Context.Complete, Context.ForwardStep, Context.Revisited, Context.Steps, InSound, OutSound;
    assert KnownAt(c, post, L, O, x, false);
    var p := [Exit(c.dfg, x)] + q;
    assert p[1..] == q;
    assert c.UseBeyond(post, Exit(c.dfg, x), v, p, false);
  }

  /** A use beyond one retreating edge is known, if the blocks up to that edge are visited again; the target of the
      edge is in any case. */
  lemma {:induction false} OneRetreatKnown(c: Context, post: seq<Block>, L: Table, O: Table, x: ProgramPoint, v: Value,
          q: seq<ProgramPoint>, r: nat)
    requires NextUsesKnown(c, post, L, O) && x.PPBlock() in post && c.dfg.HasPoint(x)
    requires c.UsePath(q, v) && q[0] == x && c.RetreatsAt(post, q, r)
    requires forall i: nat :: i <= r ==> c.Revisited(post, q[i].PPBlock()) || q[i].PPBlock() == q[r + 1].block
    ensures x in L && c.Within(L[x], v, c.Weight(q))
  {
    hide Context.UsePath, Context.Revisited, Context.RetreatsOnce, Context.CompleteAfter, InSound, OutSound;
    c.TargetRevisits(post, q, v, r);
    c.RetreatsAtOnce(post, q, r);
    assert c.Revisited(post, q[0].PPBlock());
    assert KnownAt(c, post, L, O, x, true);
    assert c.UseAhead(post, x, v, q, true);
  }

  /** All edges out of the reachable blocks go to blocks that come earlier in the post-order. */
  ghost predicate NoRetreat(c: Context, post: seq<Block>) {
    forall b: Block, k: nat, t {:trigger BranchesFrom(c.dfg, b, k, t)} ::
      b in post && BranchesFrom(c.dfg, b, k, t) ==> Earlier(post, t.dest, b)
  }

  lemma StepForward(c: Context, post: seq<Block>, x: ProgramPoint, y: ProgramPoint)
    requires NoRetreat(c, post) && c.Steps(x, y) && x.PPBlock() in post
    ensures c.ForwardStep(post, x, y) && y.PPBlock() in post
  {
    if x.AtInst? && y.AtBlock? {
      var t :| t in c.dfg.InstAt(x.inst).data.Targets() && t.dest == y.block;
      assert BranchesFrom(c.dfg, x.inst.block, x.inst.pos, t);
    }
  }

  lemma {:induction false} AllForward(c: Context, post: seq<Block>, q: seq<ProgramPoint>, v: Value)
    requires NoRetreat(c, post) && c.UsePath(q, v) && q[0].PPBlock() in post
    ensures c.Forward(post, q)
    decreases |q|
  {
    hide NoRetreat;
    if |q| > 1 {
      StepForward(c, post, q[0], q[1]);
      AllForward(c, post, q[1..], v);
    }
  }

  /** No path from a reachable block back to itself. */
  ghost predicate Acyclic(g: Graph) {
    forall u: nat, p {:trigger PathTo(g, u, p, u)} :: Reachable(g, u) && PathTo(g, u, p, u) ==> |p| == 1
  }

  /** Reachable blocks branch at their end only. */
  ghost predicate BranchesLast(dfg: Dfg) {
    forall b: Block, k: nat, t {:trigger BranchesFrom(dfg, b, k, t)} ::
      Reachable(GraphOf(dfg), b) && BranchesFrom(dfg, b, k, t) ==> k == |dfg.Insts(b)| - 1
  }

  lemma NoCycle(g: Graph, b: nat, v: nat)
    requires Acyclic(g) && Reachable(g, b) && Edge(g, b, v)
    ensures !ClosesCycle(g, b, v)
  {
    if p :| PathTo(g, v, p, b) {
      PathPrepend(g, b, p);
      assert PathTo(g, b, [b] + p, b);
    }
  }

  /** Where control never comes back, no edge retreats in a post-order. */
  lemma AcyclicNoRetreat(c: Context, post: seq<Block>)
    requires c.dfg.WellFormed() && IsPostorder(GraphOf(c.dfg), post)
    requires Acyclic(GraphOf(c.dfg)) && BranchesLast(c.dfg)
    ensures NoRetreat(c, post)
  {
    hide IsPath;
    var g := GraphOf(c.dfg);
    forall b: Block, k: nat, t | b in post && BranchesFrom(c.dfg, b, k, t) ensures Earlier(post, t.dest, b) {
      assert Reachable(g, b);
      ReachableInRange(g, b);
      assert t in c.dfg.Targets(b);
      EdgeIff(c.dfg, b, t.dest);
      var j :| 0 <= j < |post| && post[j] == b;
      assert Edge(g, post[j], t.dest);
      NoCycle(g, b, t.dest);
      var i :| 0 <= i < |post[..j]| && post[..j][i] == t.dest;
    }
  }

  /** On a function without loops the distances are exactly the shortest ones: a value is live where a use
      lies ahead, and its distance is that of the nearest. */
  lemma ExactWithoutLoops(c: Context, post: seq<Block>, L: Table, O: Table, x: ProgramPoint, v: Value)
    requires c.dfg.WellFormed() && IsPostorder(GraphOf(c.dfg), post) && NextUsesKnown(c, post, L, O)
    requires Acyclic(GraphOf(c.dfg)) && BranchesLast(c.dfg)
    requires Reachable(GraphOf(c.dfg), x.PPBlock()) && c.dfg.HasPoint(x)
    ensures x in L
    ensures IsLive(L[x], v) <==> exists d: nat {:trigger c.HasPath(x, v, d)} :: d < INFINITE && c.HasPath(x, v, d)
    ensures IsLive(L[x], v) ==> c.HasPath(x, v, L[x][v])
    ensures forall d: nat {:trigger c.HasPath(x, v, d)} :: c.HasPath(x, v, d) ==> v in L[x] && L[x][v] <= d
  {
    AcyclicNoRetreat(c, post);
    hide Context.UsePath, Context.Weight, Context.Forward, NoRetreat, RetreatsClose, HasLaterPred, Reachable, Acyclic,
         BranchesLast;
    assert KnownAt(c, post, L, O, x, false) && InSound(c, L, x);
    forall d: nat | c.HasPath(x, v, d) ensures c.Within(L[x], v, d) {
      var q :| c.PathOf(x, v, d, q);
      PathStarts(c, q, v);
      AllForward(c, post, q, v);
      assert c.UseAhead(post, x, v, q, false);
    }
  }

  /** The same after each point. */
  lemma OutExactWithoutLoops(c: Context, post: seq<Block>, L: Table, O: Table, x: ProgramPoint, v: Value)
    requires c.dfg.WellFormed() && IsPostorder(GraphOf(c.dfg), post) && NextUsesKnown(c, post, L, O)
    requires Acyclic(GraphOf(c.dfg)) && BranchesLast(c.dfg)
    requires Reachable(GraphOf(c.dfg), x.PPBlock()) && c.dfg.HasPoint(x)
    ensures x in O
    ensures IsLive(O[x], v) ==> c.HasPathAfter(Exit(c.dfg, x), v, O[x][v])
    ensures forall d: nat {:trigger c.HasPathAfter(Exit(c.dfg, x), v, d)} ::
        c.HasPathAfter(Exit(c.dfg, x), v, d) ==> v in O[x] && O[x][v] <= d
  {
    AcyclicNoRetreat(c, post);
    hide Context.Forward, NoRetreat, RetreatsClose, HasLaterPred, Reachable, Acyclic, BranchesLast, Context.Complete,
         Context.Steps, Context.UsePath, Context.Weight;
    assert KnownAt(c, post, L, O, x, false) && OutSound(c, O, x);
    var z := Exit(c.dfg, x);
    forall d: nat | c.HasPathAfter(z, v, d) ensures c.Within(O[x], v, d) {
      var y: ProgramPoint, e: nat :| c.Steps(z, y) && (y.AtBlock? ==> !c.DefinedAt(y, v))
                                     && c.StepWeight(z, y) + e == d && c.HasPath(y, v, e);
      var q :| c.PathOf(y, v, e, q);
      BeyondForward(c, post, z, y, v, q);
    }
  }

  lemma {:induction false} BeyondForward(c: Context, post: seq<Block>, z: ProgramPoint, y: ProgramPoint, v: Value,
          q: seq<ProgramPoint>)
    requires NoRetreat(c, post) && c.Steps(z, y) && z.PPBlock() in post && c.UsePath(q, v) && q[0] == y
    requires y.AtBlock? ==> !c.DefinedAt(y, v)
    ensures c.UseBeyond(post, z, v, [z] + q, false) && c.Weight([z] + q) == c.StepWeight(z, y) + c.Weight(q)
  {
    assert ([z] + q)[1..] == q;
    StepForward(c, post, z, y);
    AllForward(c, post, q, v);
  }

  lemma {:induction false} PathStarts(c: Context, q: seq<ProgramPoint>, v: Value)
    requires c.UsePath(q, v)
    ensures |q| > 0
  {
  }

  // Which edges leave a loop

  /** The source is in a loop that the destination is not part of. */
  predicate Leaves(c: Context, b: Block, s: Block) {
    c.InnermostLoop(b).Some? && !InLoop(c.loops, c.tags, s, c.InnermostLoop(b).value)
  }

  /** Both blocks are in loops, and neither innermost loop contains the other. */
  predicate SideBySide(c: Context, b: Block, s: Block) {
    && c.InnermostLoop(b).Some? && c.InnermostLoop(s).Some?
    && !Under(c.loops, c.InnermostLoop(b).value, c.InnermostLoop(s).value)
    && !Under(c.loops, c.InnermostLoop(s).value, c.InnermostLoop(b).value)
  }

  /** The test of the code, in terms of the loop tree. */
  lemma LoopExitIff(c: Context, b: Block, s: Block)
    requires ParentsBefore(c.loops)
    ensures c.LoopExit(b, s) <==> Leaves(c, b, s) && !SideBySide(c, b, s)
  {
    if c.InnermostLoop(b).Some? && c.InnermostLoop(s).Some? {
      var l, m := c.InnermostLoop(b).value, c.InnermostLoop(s).value;
      if Under(c.loops, l, m) {
        UnderBounds(c.loops, l, m, 0);
      }
      if Under(c.loops, m, l) {
        UnderBounds(c.loops, m, l, 0);
      }
    }
  }

  lemma ForestFacts(dfg: Dfg, ns: seq<Node>, loops: seq<LoopData>, tags: LoopMap)
    requires IsLoopForest(dfg, ns, loops, tags)
    ensures |tags| == dfg.NumBlocks() && LoopsUsable(loops, tags)
    ensures forall j: nat :: j < |loops| ==> IsHeader(GraphOf(dfg), loops[j].header)
    ensures forall j: nat, b: Block {:trigger InLoop(loops, tags, b, j)} ::
              j < |loops| ==> (InLoop(loops, tags, b, j) <==> InBody(GraphOf(dfg), loops[j].header, b))
    ensures forall h: Block {:trigger IsHeader(GraphOf(dfg), h)} :: IsHeader(GraphOf(dfg), h) ==> HasLoop(loops, h)
  {
  }

  /** No edge of a block that can be analysed leads from a loop into one beside it. */
  lemma NeverSideBySide(dfg: Dfg, data: CfgData, ns: seq<Node>, loops: seq<LoopData>, tags: LoopMap,
          b: Block, s: Block)
    requires dfg.WellFormed() && Exact(dfg, data) && IsLoopForest(dfg, ns, loops, tags)
    requires Edge(GraphOf(dfg), b, s) && Analyzable(dfg, data, b)
    ensures !SideBySide(Context(dfg, loops, tags), b, s)
  {
    hide IsHeader, InBody, Exact, GraphOf, Under;
    ForestFacts(dfg, ns, loops, tags);
    hide IsLoopForest, LoopsInv;
    var g, c := GraphOf(dfg), Context(dfg, loops, tags);
    if SideBySide(c, b, s) {
      var l, m := c.InnermostLoop(b).value, c.InnermostLoop(s).value;
      SelfInLoop(loops, tags, b);
      SelfInLoop(loops, tags, s);
      assert !InLoop(loops, tags, s, l) && !InLoop(loops, tags, b, m);
      var d, q := EntersBeside(g, loops[l].header, loops[m].header, b, s);
      NotCritical(dfg, data, b, s, d, q);
    }
  }

  lemma SelfInLoop(loops: seq<LoopData>, tags: LoopMap, b: Block)
    ensures b < |tags| && tags[b].Some? ==> InLoop(loops, tags, b, tags[b].value)
  {
  }

  /** Two successors take a branch with several targets. */
  lemma SeveralTargets(dfg: Dfg, b: Block, s: Block, d: Block)
    requires Edge(GraphOf(dfg), b, s) && Edge(GraphOf(dfg), b, d) && d != s
    ensures |dfg.Insts(b)| > 0 && dfg.Insts(b)[|dfg.Insts(b)| - 1].data.AnalyzeBranch().MultiDest?
    ensures exists t :: t in dfg.Targets(b) && t.dest == s
  {
    hide GraphOf, Edge;
    EdgeIff(dfg, b, s);
    EdgeIff(dfg, b, d);
  }

  /** The edges of a block that can be analysed are not critical. */
  lemma NotCritical(dfg: Dfg, data: CfgData, b: Block, s: Block, d: Block, q: Block)
    requires dfg.WellFormed() && Exact(dfg, data) && Analyzable(dfg, data, b)
    requires Edge(GraphOf(dfg), b, s) && Edge(GraphOf(dfg), b, d) && d != s && Edge(GraphOf(dfg), q, s)
    ensures q == b
  {
    hide GraphOf, Edge, Exact;
    SeveralTargets(dfg, b, s, d);
    var k := |dfg.Insts(b)| - 1;
    assert BranchOk(dfg, data, b, k);
    var t :| t in dfg.Targets(b) && t.dest == s;
    assert HasOnePred(data, t);
    ManyPreds(dfg, data, b, s);
  }

  /** The penalty applies to exactly the edges that leave some loop. */
  lemma PenaltyIffLeaves(dfg: Dfg, data: CfgData, ns: seq<Node>, loops: seq<LoopData>, tags: LoopMap,
          b: Block, s: Block)
    requires dfg.WellFormed() && Exact(dfg, data) && IsLoopForest(dfg, ns, loops, tags)
    requires Edge(GraphOf(dfg), b, s) && Analyzable(dfg, data, b)
    ensures Context(dfg, loops, tags).LoopExit(b, s) <==> LeavesLoop(GraphOf(dfg), b, s)
  {
    hide IsHeader, InBody, Exact, GraphOf, Under, Analyzable;
    ForestFacts(dfg, ns, loops, tags);
    NeverSideBySide(dfg, data, ns, loops, tags, b, s);
    hide IsLoopForest, LoopsInv;
    var g, c := GraphOf(dfg), Context(dfg, loops, tags);
    LoopExitIff(c, b, s);
    SelfInLoop(loops, tags, b);
    if Leaves(c, b, s) {
      var l := c.InnermostLoop(b).value;
      assert LeavesThe(g, loops[l].header, b, s);
    }
    if h: nat :| LeavesThe(g, h, b, s) {
      assert HasLoop(loops, h);
      var j: nat :| j < |loops| && loops[j].header == h;
      assert InLoop(loops, tags, b, j) && !InLoop(loops, tags, s, j);
      InLoopUp(loops, tags, b, s, j);
    }
  }

  ghost predicate LeavesThe(g: Graph, h: nat, b: nat, s: nat) {
    IsHeader(g, h) && InBody(g, h, b) && !InBody(g, h, s)
  }

  /** Some natural loop holds `b` but not `s`. */
  ghost predicate LeavesLoop(g: Graph, b: nat, s: nat) {
    exists h: nat :: LeavesThe(g, h, b, s)
  }

  /** What is in the innermost loop of `b` is in every loop around `b`. */
  lemma InLoopUp(loops: seq<LoopData>, tags: LoopMap, b: Block, s: Block, j: nat)
    requires InLoop(loops, tags, b, j) && !InLoop(loops, tags, s, j)
    ensures !InLoop(loops, tags, s, tags[b].value)
  {
    if InLoop(loops, tags, s, tags[b].value) {
      UnderTrans(loops, tags[s].value, tags[b].value, j);
    }
  }
}
