/** The control flow graph of a function, and how it is kept in step with edits of the function. */
module ControlFlow {
  import opened IR
  import opened Graphs

  datatype BlockPredecessor = BlockPredecessor(block: Block, inst: Inst)

  datatype CfgNode = CfgNode(predecessors: map<Inst, Block>, successors: set<Block>)

  /** Node storage with a default node, like `SecondaryMap`. */
  type CfgData = map<Block, CfgNode>

  function NodeOf(data: CfgData, b: Block): CfgNode {
    if b in data then data[b] else CfgNode(map[], {})
  }

  function Preds(data: CfgData, b: Block): map<Inst, Block> {
    NodeOf(data, b).predecessors
  }

  function Succs(data: CfgData, b: Block): set<Block> {
    NodeOf(data, b).successors
  }

  predicate IsPred(data: CfgData, i: Inst, b: Block) {
    i in Preds(data, b)
  }

  /** `m` without the entries of `block`. */
  function Without(m: map<Inst, Block>, block: Block): map<Inst, Block> {
    map i | i in m && m[i] != block :: m[i]
  }

  /** `m`, the predecessors of `b`, with the edge `block` has to `b` in `dfg`, if any. */
  function WithEdge(dfg: Dfg, block: Block, b: Block, m: map<Inst, Block>): map<Inst, Block> {
    if |dfg.Insts(block)| > 0 && b in SuccSet(dfg, block) then m[Inst(block, |dfg.Insts(block)| - 1) := block] else m
  }

  // What the graph should be

  function SuccSet(dfg: Dfg, b: Block): set<Block> {
    set t | t in dfg.Targets(b) :: t.dest
  }

  /** `i` is the instruction of its block that may branch, and it branches to `b`. */
  predicate Branches(dfg: Dfg, i: Inst, b: Block) {
    dfg.LastInst(i.block) == Some(i) && b in SuccSet(dfg, i.block)
  }

  /** The edges leaving the first `n` blocks are recorded, and no others. */
  ghost predicate RecordsEdgesBelow(dfg: Dfg, data: CfgData, n: nat) {
    && (forall b: Block :: Succs(data, b) == if b < n then SuccSet(dfg, b) else {})
    && (forall b: Block, i: Inst {:trigger IsPred(data, i, b)} ::
          IsPred(data, i, b) <==> i.block < n && Branches(dfg, i, b))
    && (forall b: Block, i: Inst {:trigger IsPred(data, i, b)} :: IsPred(data, i, b) ==> Preds(data, b)[i] == i.block)
  }

  /** The graph is the one `compute` builds for `dfg`. */
  ghost predicate Exact(dfg: Dfg, data: CfgData) {
    RecordsEdgesBelow(dfg, data, dfg.NumBlocks())
  }

  ghost predicate HasPredIn(data: CfgData, s: Block, b: Block) {
    exists i: Inst :: IsPred(data, i, s) && i.block == b
  }

  /** The two directions of the graph mirror each other. */
  ghost predicate Mirrored(data: CfgData) {
    && (forall b: Block, i: Inst {:trigger IsPred(data, i, b)} ::
          IsPred(data, i, b) ==> Preds(data, b)[i] == i.block && b in Succs(data, i.block))
    && (forall b: Block, s: Block :: s in Succs(data, b) ==> HasPredIn(data, s, b))
  }

  /** The paths of the function: one vertex per block, edges in branch order. */
  function GraphOf(dfg: Dfg): (g: Graph)
    ensures |g.succs| == dfg.NumBlocks() && g.entry == dfg.entry
  {
    Graph(dfg.entry, SuccLists(dfg, dfg.NumBlocks()))
  }

  /** The successor lists of the first `n` blocks. */
  function SuccLists(dfg: Dfg, n: nat): (ss: seq<seq<Block>>)
    ensures |ss| == n
  {
    if n == 0 then [] else SuccLists(dfg, n - 1) + [dfg.Destinations(n - 1)]
  }

  lemma {:induction false} SuccListsAt(dfg: Dfg, n: nat, b: Block)
    requires b < n
    ensures SuccLists(dfg, n)[b] == dfg.Destinations(b)
  {
    hide Dfg.Destinations;
    if b < n - 1 {
      SuccListsAt(dfg, n - 1, b);
    }
  }

  lemma EdgeIff(dfg: Dfg, u: Block, v: Block)
    ensures Edge(GraphOf(dfg), u, v) <==> u < dfg.NumBlocks() && v < dfg.NumBlocks() && v in SuccSet(dfg, u)
  {
    var ts := dfg.Targets(u);
    if u < dfg.NumBlocks() {
      SuccListsAt(dfg, dfg.NumBlocks(), u);
    }
    if v in dfg.Destinations(u) {
      var k :| 0 <= k < |ts| && dfg.Destinations(u)[k] == v;
      assert ts[k] in ts;
    }
    if v in SuccSet(dfg, u) {
      var t :| t in ts && t.dest == v;
      var k :| 0 <= k < |ts| && ts[k] == t;
      assert dfg.Destinations(u)[k] == v;
    }
  }

  lemma GraphWellFormed(dfg: Dfg)
    requires dfg.WellFormed()
    ensures Graphs.WellFormed(GraphOf(dfg))
  {
    forall u: nat, v: nat | u < dfg.NumBlocks() && v in GraphOf(dfg).succs[u] ensures v < dfg.NumBlocks() {
      SuccListsAt(dfg, dfg.NumBlocks(), u);
      var ts := dfg.Targets(u);
      var k :| 0 <= k < |ts| && dfg.Destinations(u)[k] == v;
      assert ts[k] in ts;
    }
  }

  lemma SuccInRange(d: Dfg, p: Block, y: Block)
    requires d.WellFormed() && p < d.NumBlocks()
    ensures y in SuccSet(d, p) ==> y < d.NumBlocks()
  {
    if y in SuccSet(d, p) {
      var t :| t in d.Targets(p) && t.dest == y;
    }
  }

  /** The branch targets of a block are the edges leaving it. */
  lemma TargetsAreEdges(dfg: Dfg, b: Block)
    requires dfg.WellFormed() && b < dfg.NumBlocks()
    ensures forall k :: 0 <= k < |dfg.Targets(b)| ==>
              dfg.Targets(b)[k].dest < dfg.NumBlocks() && Edge(GraphOf(dfg), b, dfg.Targets(b)[k].dest)
    ensures forall v: nat ::
        Edge(GraphOf(dfg), b, v) ==> exists k :: 0 <= k < |dfg.Targets(b)| && dfg.Targets(b)[k].dest == v
  {
    var ts := dfg.Targets(b);
    forall k | 0 <= k < |ts| ensures ts[k].dest < dfg.NumBlocks() && Edge(GraphOf(dfg), b, ts[k].dest) {
      assert ts[k] in ts;
      EdgeIff(dfg, b, ts[k].dest);
    }
    forall v: nat | Edge(GraphOf(dfg), b, v) ensures exists k :: 0 <= k < |ts| && ts[k].dest == v {
      EdgeIff(dfg, b, v);
      var t :| t in ts && t.dest == v;
    }
  }

  /** `preds` lists each predecessor of `b` once, with its terminator. */
  ghost predicate ListsPreds(dfg: Dfg, b: Block, preds: seq<BlockPredecessor>) {
    && (forall k :: 0 <= k < |preds| ==>
          Edge(GraphOf(dfg), preds[k].block, b) && dfg.LastInst(preds[k].block) == Some(preds[k].inst))
    && (forall f: nat :: Edge(GraphOf(dfg), f, b) ==> exists k :: 0 <= k < |preds| && preds[k].block == f)
    && (forall i, j :: 0 <= i < j < |preds| ==> preds[i].block != preds[j].block)
  }

  // The laws of recomputing

  /** Recording the edges of every block from scratch gives mirrored maps. */
  lemma ExactIsMirrored(dfg: Dfg, data: CfgData)
    requires Exact(dfg, data)
    ensures Mirrored(data)
  {
    forall b: Block, s: Block | s in Succs(data, b) ensures HasPredIn(data, s, b) {
      assert b < dfg.NumBlocks();
      var i := Inst(b, |dfg.Insts(b)| - 1);
      assert Branches(dfg, i, s);
    }
  }

  /** Two computations of the same function agree on every block. */
  lemma ExactIsUnique(dfg: Dfg, data: CfgData, data': CfgData)
    requires Exact(dfg, data) && Exact(dfg, data')
    ensures forall b: Block :: Preds(data, b) == Preds(data', b) && Succs(data, b) == Succs(data', b)
  {
    forall b: Block ensures Preds(data, b) == Preds(data', b) {
      forall i: Inst ensures i in Preds(data, b) <==> i in Preds(data', b) {
        assert IsPred(data, i, b) <==> IsPred(data', i, b);
      }
      forall i | i in Preds(data, b) ensures Preds(data, b)[i] == Preds(data', b)[i] {
        assert IsPred(data, i, b) && IsPred(data', i, b);
      }
    }
  }

  /** The data after the edges leaving `block` have been replaced by those of `dfg`. */
  ghost predicate ReplacesEdgesOf(dfg: Dfg, block: Block, data: CfgData, data': CfgData) {
    && (forall b: Block :: Succs(data', b) == if b == block then SuccSet(dfg, b) else Succs(data, b))
    && (forall b: Block :: Preds(data', b) == WithEdge(dfg, block, b, Without(Preds(data, b), block)))
  }

  /** What replacing the edges of `block` does to one entry of the predecessors of `b`. */
  lemma ReplacedEntry(dfg: Dfg, block: Block, b: Block, m: map<Inst, Block>, i: Inst)
    requires forall j :: j in m ==> m[j] == j.block
    ensures var r := WithEdge(dfg, block, b, Without(m, block));
            && (i in r <==> if i.block == block then Branches(dfg, i, b) else i in m)
            && (i in r ==> r[i] == i.block)
  {
    hide SuccSet;
  }

  lemma SameBranches(before: Dfg, after: Dfg, i: Inst, b: Block)
    requires after.Insts(i.block) == before.Insts(i.block)
    ensures SuccSet(after, i.block) == SuccSet(before, i.block)
    ensures Branches(after, i, b) <==> Branches(before, i, b)
    ensures i.block >= before.NumBlocks() ==> !Branches(before, i, b)
  {
  }

  /** Recomputing the one block whose instructions changed is as good as starting over. */
  lemma RecomputeIsExact(before: Dfg, after: Dfg, block: Block, data: CfgData, data': CfgData)
    requires Exact(before, data)
    requires block < after.NumBlocks() && before.NumBlocks() <= after.NumBlocks()
    requires forall b: Block :: b != block ==> after.Insts(b) == before.Insts(b)
    requires ReplacesEdgesOf(after, block, data, data')
    ensures Exact(after, data')
  {
    hide WithEdge, Without, Branches, SuccSet;
    forall b: Block ensures Succs(data', b) == if b < after.NumBlocks() then SuccSet(after, b) else {} {
      RecomputedSuccs(before, after, block, data, data', b);
    }
    forall b: Block, i: Inst
      ensures IsPred(data', i, b) <==> i.block < after.NumBlocks() && Branches(after, i, b)
      ensures IsPred(data', i, b) ==> Preds(data', b)[i] == i.block
    {
      RecomputedPreds(before, after, block, data, data', b, i);
    }
  }

  lemma RecomputedSuccs(before: Dfg, after: Dfg, block: Block, data: CfgData, data': CfgData, b: Block)
    requires Exact(before, data) && block < after.NumBlocks() && before.NumBlocks() <= after.NumBlocks()
    requires b != block ==> after.Insts(b) == before.Insts(b)
    requires ReplacesEdgesOf(after, block, data, data')
    ensures Succs(data', b) == if b < after.NumBlocks() then SuccSet(after, b) else {}
  {
    hide WithEdge, Without, Branches;
  }

  lemma RecomputedPreds(before: Dfg, after: Dfg, block: Block, data: CfgData, data': CfgData, b: Block, i: Inst)
    requires Exact(before, data) && block < after.NumBlocks() && before.NumBlocks() <= after.NumBlocks()
    requires i.block != block ==> after.Insts(i.block) == before.Insts(i.block)
    requires ReplacesEdgesOf(after, block, data, data')
    ensures IsPred(data', i, b) <==> i.block < after.NumBlocks() && Branches(after, i, b)
    ensures IsPred(data', i, b) ==> Preds(data', b)[i] == i.block
  {
    hide WithEdge, Without, Branches, SuccSet;
    var m := Preds(data, b);
    forall j | j in m ensures m[j] == j.block {
      assert IsPred(data, j, b);
    }
    ReplacedEntry(after, block, b, m, i);
    assert Preds(data', b) == WithEdge(after, block, b, Without(m, block));
    assert IsPred(data, i, b) <==> i.block < before.NumBlocks() && Branches(before, i, b);
    if i.block != block {
      SameBranches(before, after, i, b);
    }
  }

  /** Recomputing keeps the two directions mirrored, whatever the block has become. */
  lemma RecomputeIsMirrored(dfg: Dfg, block: Block, data: CfgData, data': CfgData)
    requires Mirrored(data) && ReplacesEdgesOf(dfg, block, data, data')
    ensures Mirrored(data')
  {
    forall b: Block, i: Inst | IsPred(data', i, b)
      ensures Preds(data', b)[i] == i.block && b in Succs(data', i.block)
    {
      assert Preds(data', b) == WithEdge(dfg, block, b, Without(Preds(data, b), block));
      assert IsPred(data, i, b) ==> Preds(data, b)[i] == i.block && b in Succs(data, i.block);
    }
    forall b: Block, s: Block | s in Succs(data', b) ensures HasPredIn(data', s, b) {
      assert Preds(data', s) == WithEdge(dfg, block, s, Without(Preds(data, s), block));
      if b == block {
        assert IsPred(data', Inst(block, |dfg.Insts(block)| - 1), s);
      } else {
        assert HasPredIn(data, s, b);
        var i :| IsPred(data, i, s) && i.block == b;
        assert IsPred(data', i, s);
      }
    }
  }

  lemma DetachIsMirrored(block: Block, data: CfgData, data': CfgData)
    requires Mirrored(data)
    requires forall b: Block :: Succs(data', b) == if b == block then {} else Succs(data, b)
    requires forall b: Block :: Preds(data', b) == Without(Preds(data, b), block)
    ensures Mirrored(data')
  {
    forall b: Block, i: Inst | IsPred(data', i, b)
      ensures Preds(data', b)[i] == i.block && b in Succs(data', i.block)
    {
      assert Preds(data', b) == Without(Preds(data, b), block);
      assert IsPred(data, i, b);
    }
    forall b: Block, s: Block | s in Succs(data', b) ensures HasPredIn(data', s, b) {
      assert Preds(data', s) == Without(Preds(data, s), block);
      assert HasPredIn(data, s, b);
      var i :| IsPred(data, i, s) && i.block == b;
      assert IsPred(data', i, s);
    }
  }

  class ControlFlowGraph {
    var data: CfgData
    var valid: bool

    constructor ()
      ensures data == map[] && !valid
    {
      data := map[];
      valid := false;
    }

    method Compute(dfg: Dfg)
      modifies this
      ensures valid && Exact(dfg, data)
    {
      data := map[];
      var b := 0;
      while b < dfg.NumBlocks()
        invariant b <= dfg.NumBlocks()
        invariant RecordsEdgesBelow(dfg, data, b)
      {
        ghost var was := data;
        ComputeBlock(dfg, b);
        RecordOneMore(dfg, was, data, b);
        b := b + 1;
      }
      valid := true;
    }

    /** After changing the instructions of `block`; edges into `block` stay. */
    method RecomputeBlock(dfg: Dfg, block: Block)
      requires Mirrored(data)
      modifies this`data
      ensures ReplacesEdgesOf(dfg, block, old(data), data) && Mirrored(data)
    {
      InvalidateBlockSuccessors(block);
      ComputeBlock(dfg, block);
      RecomputeIsMirrored(dfg, block, old(data), data);
    }

    method DetachBlock(block: Block)
      requires Mirrored(data)
      modifies this`data
      ensures Mirrored(data)
      ensures forall b: Block :: Succs(data, b) == if b == block then {} else Succs(old(data), b)
      ensures forall b: Block :: Preds(data, b) == Without(Preds(old(data), b), block)
    {
      InvalidateBlockSuccessors(block);
      DetachIsMirrored(block, old(data), data);
    }

    method ComputeBlock(dfg: Dfg, block: Block)
      modifies this`data
      ensures forall b: Block :: Succs(data, b) == Succs(old(data), b) + if b == block then SuccSet(dfg, b) else {}
      ensures forall b: Block :: Preds(data, b) == WithEdge(dfg, block, b, Preds(old(data), b))
    {
      BranchSuccs(dfg, block);
      var last := dfg.LastInst(block);
      hide SuccSet, NodeOf, Preds, Succs, ArmSet;
      if last.None? { return; }
      var inst := last.value;
      match dfg.InstAt(inst).data {
        case Br(t) =>
          AddEdge(block, inst, t.dest);
        case CondBr(_, t, e) =>
          AddEdge(block, inst, t.dest);
          AddEdge(block, inst, e.dest);
        case Switch(_, arms, fallback) =>
          AddEdge(block, inst, fallback);
          AddArms(block, inst, arms);
        case _ =>
      }
    }

    method AddArms(block: Block, inst: Inst, arms: seq<(nat, Block)>)
      modifies this`data
      ensures forall b: Block :: Succs(data, b) == Succs(old(data), b) + if b == block then ArmSet(arms) else {}
      ensures forall b: Block :: Preds(data, b) ==
                  if b in ArmSet(arms) then Preds(old(data), b)[inst := block] else Preds(old(data), b)
    {
      for k := 0 to |arms|
        invariant forall b: Block ::
            Succs(data, b) == Succs(old(data), b) + if b == block then ArmSet(arms[..k]) else {}
        invariant forall b: Block :: Preds(data, b) ==
                      if b in ArmSet(arms[..k]) then Preds(old(data), b)[inst := block] else Preds(old(data), b)
      {
        assert arms[..k + 1] == arms[..k] + [arms[k]];
        assert ArmSet(arms[..k + 1]) == ArmSet(arms[..k]) + {arms[k].1};
        AddEdge(block, inst, arms[k].1);
      }
      assert arms[..|arms|] == arms;
    }

    method AddEdge(from: Block, fromInst: Inst, to: Block)
      modifies this`data
      ensures forall b: Block :: Succs(data, b) == Succs(old(data), b) + if b == from then {to} else {}
      ensures forall b: Block :: Preds(data, b) ==
                  if b == to then Preds(old(data), b)[fromInst := from] else Preds(old(data), b)
    {
      data := data[from := NodeOf(data, from).(successors := Succs(data, from) + {to})];
      data := data[to := NodeOf(data, to).(predecessors := Preds(data, to)[fromInst := from])];
    }

    method InvalidateBlockSuccessors(block: Block)
      requires Mirrored(data)
      modifies this`data
      ensures forall b: Block :: Succs(data, b) == if b == block then {} else Succs(old(data), b)
      ensures forall b: Block :: Preds(data, b) == Without(Preds(old(data), b), block)
    {
      var todo := Succs(data, block);
      forall b: Block | b !in todo ensures Preds(data, b) == Without(Preds(data, b), block) {
        assert forall i :: i in Preds(data, b) ==> IsPred(data, i, b);
      }
      data := data[block := NodeOf(data, block).(successors := {})];
      while todo != {}
        invariant todo <= Succs(old(data), block)
        invariant forall b: Block :: Succs(data, b) == if b == block then {} else Succs(old(data), b)
        invariant forall b: Block :: b in todo ==> Preds(data, b) == Preds(old(data), b)
        invariant forall b: Block :: b !in todo ==> Preds(data, b) == Without(Preds(old(data), b), block)
        decreases todo
      {
        var s :| s in todo;
        data := data[s := NodeOf(data, s).(predecessors := Without(Preds(data, s), block))];
        todo := todo - {s};
      }
    }

    function NumPredecessors(block: Block): nat
      reads this`data
    {
      |Preds(data, block)|
    }

    function NumSuccessors(block: Block): nat
      reads this`data
    {
      |Succs(data, block)|
    }

    /** The predecessors of `block`, in an arbitrary order, each once. */
    method PredIter(block: Block) returns (r: seq<BlockPredecessor>)
      ensures ListsEntries(Preds(data, block), r)
    {
      r := [];
      var m := Preds(data, block);
      var todo := m.Keys;
      while todo != {}
        invariant todo <= m.Keys && |r| + |todo| == |m|
        invariant forall k :: 0 <= k < |r| ==> r[k].inst in m && r[k].inst !in todo && r[k].block == m[r[k].inst]
        invariant forall i :: i in m ==> i in todo || BlockPredecessor(m[i], i) in r
        invariant forall i, j :: 0 <= i < j < |r| ==> r[i].inst != r[j].inst
        decreases todo
      {
        var i :| i in todo;
        r := r + [BlockPredecessor(m[i], i)];
        todo := todo - {i};
      }
    }

    /** The successors of `block`, in an arbitrary order, each once. */
    method SuccIter(block: Block) returns (r: seq<Block>)
      ensures forall b :: b in r <==> b in Succs(data, block)
      ensures forall i, j :: 0 <= i < j < |r| ==> r[i] != r[j]
    {
      r := [];
      var todo := Succs(data, block);
      while todo != {}
        invariant todo <= Succs(data, block)
        invariant forall b :: b in r <==> b in Succs(data, block) - todo
        invariant forall i, j :: 0 <= i < j < |r| ==> r[i] != r[j]
        decreases todo
      {
        var b :| b in todo;
        ghost var before := r;
        r := r + [b];
        assert forall x :: x in r <==> x in before || x == b;
        todo := todo - {b};
      }
    }
  }

  /** `r` holds the entries of `m`, each once. */
  ghost predicate ListsEntries(m: map<Inst, Block>, r: seq<BlockPredecessor>) {
    && |r| == |m|
    && (forall k :: 0 <= k < |r| ==> r[k].inst in m && r[k].block == m[r[k].inst])
    && (forall i :: i in m ==> BlockPredecessor(m[i], i) in r)
    && (forall i, j :: 0 <= i < j < |r| ==> r[i].inst != r[j].inst)
  }

  /** On an exact graph the iterator walks the edges into `b`. */
  lemma EntriesArePreds(dfg: Dfg, data: CfgData, b: Block, r: seq<BlockPredecessor>)
    requires dfg.WellFormed() && Exact(dfg, data) && b < dfg.NumBlocks()
    requires ListsEntries(Preds(data, b), r)
    ensures ListsPreds(dfg, b, r)
  {
    forall k | 0 <= k < |r|
      ensures Edge(GraphOf(dfg), r[k].block, b) && dfg.LastInst(r[k].block) == Some(r[k].inst)
      ensures r[k].inst.block == r[k].block
    {
      assert IsPred(data, r[k].inst, b);
      EdgeIff(dfg, r[k].inst.block, b);
    }
    forall f: nat | Edge(GraphOf(dfg), f, b) ensures exists k :: 0 <= k < |r| && r[k].block == f {
      EdgeIff(dfg, f, b);
      var i := Inst(f, |dfg.Insts(f)| - 1);
      assert Branches(dfg, i, b);
      assert IsPred(data, i, b);
      var k :| 0 <= k < |r| && r[k] == BlockPredecessor(Preds(data, b)[i], i);
    }
  }

  function ArmSet(arms: seq<(nat, Block)>): set<Block> {
    set a | a in arms :: a.1
  }

  /** The successors of a block, by the form of its last instruction. */
  lemma BranchSuccs(dfg: Dfg, block: Block)
    ensures dfg.LastInst(block).None? ==> |dfg.Insts(block)| == 0 && SuccSet(dfg, block) == {}
    ensures dfg.LastInst(block).Some? ==>
              && |dfg.Insts(block)| > 0
              && SuccSet(dfg, block) == match dfg.Insts(block)[|dfg.Insts(block)| - 1].data
                                        case Br(t) => {t.dest}
                                        case CondBr(_, t, e) => {t.dest, e.dest}
                                        case Switch(_, arms, fallback) => ArmSet(arms) + {fallback}
                                        case _ => {}
  {
    if dfg.LastInst(block).Some? {
      match dfg.Insts(block)[|dfg.Insts(block)| - 1].data {
        case Br(t) =>
          assert dfg.Targets(block) == [t];
        case CondBr(_, t, e) =>
          assert dfg.Targets(block) == [t, e];
        case Switch(_, arms, fallback) =>
          SwitchSuccs(dfg, block, arms, fallback);
        case _ =>
      }
    }
  }

  /** A block that returns has no successors. */
  lemma NoSuccs(d: Dfg, u: Block)
    requires d.Insts(u) == [] || d.Insts(u) == [InstNode(Ret([]), [])]
    ensures SuccSet(d, u) == {}
  {
    BranchSuccs(d, u);
  }

  lemma SwitchSuccs(dfg: Dfg, block: Block, arms: seq<(nat, Block)>, fallback: Block)
    requires |dfg.Insts(block)| > 0
    requires var d := dfg.Insts(block)[|dfg.Insts(block)| - 1].data;
             d.Switch? && d.arms == arms && d.fallback == fallback
    ensures SuccSet(dfg, block) == ArmSet(arms) + {fallback}
  {
    var ts := dfg.Targets(block);
    assert ts == ArmTargets(arms) + [JumpTable(fallback, [])];
    forall b | b in SuccSet(dfg, block) ensures b in ArmSet(arms) + {fallback} {
      var k :| 0 <= k < |ts| && ts[k].dest == b;
      assert k < |arms| ==> arms[k] in arms;
    }
    forall b | b in ArmSet(arms) + {fallback} ensures b in SuccSet(dfg, block) {
      if b == fallback {
        assert ts[|arms|].dest == b;
      } else {
        var a :| a in arms && a.1 == b;
        var k :| 0 <= k < |arms| && arms[k] == a;
        assert ts[k].dest == b;
      }
    }
  }

  /** One more block recorded by `ComputeBlock`. */
  lemma RecordOneMore(dfg: Dfg, data: CfgData, data': CfgData, block: Block)
    requires RecordsEdgesBelow(dfg, data, block)
    requires forall b: Block :: Succs(data', b) == Succs(data, b) + if b == block then SuccSet(dfg, b) else {}
    requires forall b: Block :: Preds(data', b) == WithEdge(dfg, block, b, Preds(data, b))
    ensures RecordsEdgesBelow(dfg, data', block + 1)
  {
    forall b: Block, i: Inst
      ensures IsPred(data', i, b) <==> i.block < block + 1 && Branches(dfg, i, b)
      ensures IsPred(data', i, b) ==> Preds(data', b)[i] == i.block
    {
      assert Preds(data', b) == WithEdge(dfg, block, b, Preds(data, b));
      assert IsPred(data, i, b) <==> i.block < block && Branches(dfg, i, b);
    }
  }

  // Counting edges

  ghost predicate OtherPred(g: Graph, x: nat, y: nat) {
    exists z: nat :: z != x && Edge(g, z, y)
  }

  ghost predicate OtherSucc(g: Graph, x: nat, y: nat) {
    exists z: nat :: z != y && Edge(g, x, z)
  }

  lemma TwoOrMore<T>(s: set<T>, x: T)
    requires x in s
    ensures |s| >= 2 <==> exists y :: y in s && y != x
  {
    if y :| y in s && y != x {
      assert {x, y} <= s && |{x, y}| == 2;
      assert |s - {x, y}| == |s| - 2;
    } else {
      assert s == {x};
    }
  }

  lemma ManyPreds(dfg: Dfg, data: CfgData, p: Block, b: Block)
    requires dfg.WellFormed() && Exact(dfg, data) && Edge(GraphOf(dfg), p, b)
    ensures |Preds(data, b)| >= 2 <==> OtherPred(GraphOf(dfg), p, b)
  {
    var m := Preds(data, b);
    EdgeIff(dfg, p, b);
    var i := Inst(p, |dfg.Insts(p)| - 1);
    assert Branches(dfg, i, b);
    assert IsPred(data, i, b);
    TwoOrMore(m.Keys, i);
    if j :| j in m.Keys && j != i {
      assert IsPred(data, j, b);
      EdgeIff(dfg, j.block, b);
      assert j.block != p && Edge(GraphOf(dfg), j.block, b);
    }
    if OtherPred(GraphOf(dfg), p, b) {
      var z: nat :| z != p && Edge(GraphOf(dfg), z, b);
      EdgeIff(dfg, z, b);
      var j := Inst(z, |dfg.Insts(z)| - 1);
      assert Branches(dfg, j, b);
      assert IsPred(data, j, b);
    }
  }

  lemma SuccsAreEdges(dfg: Dfg, data: CfgData, p: Block)
    requires dfg.WellFormed() && Exact(dfg, data)
    ensures forall y: Block :: y in Succs(data, p) <==> Edge(GraphOf(dfg), p, y)
  {
    forall y: Block ensures y in Succs(data, p) <==> Edge(GraphOf(dfg), p, y) {
      EdgeIff(dfg, p, y);
      if p < dfg.NumBlocks() && y in SuccSet(dfg, p) {
        var t :| t in dfg.Targets(p) && t.dest == y;
      }
    }
  }

  lemma ManySuccs(dfg: Dfg, data: CfgData, p: Block)
    requires dfg.WellFormed() && Exact(dfg, data)
    ensures |Succs(data, p)| >= 2 ==> forall y: nat :: OtherSucc(GraphOf(dfg), p, y)
    ensures |Succs(data, p)| < 2 ==> forall y: nat :: Edge(GraphOf(dfg), p, y) ==> !OtherSucc(GraphOf(dfg), p, y)
  {
    SuccsAreEdges(dfg, data, p);
    var s := Succs(data, p);
    if |s| >= 2 {
      forall y: nat ensures OtherSucc(GraphOf(dfg), p, y) {
        var x: Block :| x in s;
        TwoOrMore(s, x);
        if x == y {
          var z: Block :| z in s && z != x;
          assert Edge(GraphOf(dfg), p, z);
        }
      }
    } else {
      forall y: nat | Edge(GraphOf(dfg), p, y) ensures !OtherSucc(GraphOf(dfg), p, y) {
        TwoOrMore(s, y);
        forall z: nat | z != y ensures !Edge(GraphOf(dfg), p, z) {
          assert z !in s;
        }
      }
    }
  }

  lemma SomePred(d: Dfg, data: CfgData, p: Block, b: Block)
    requires d.WellFormed() && Exact(d, data) && Edge(GraphOf(d), p, b)
    ensures |Preds(data, b)| >= 1
  {
    EdgeIff(d, p, b);
    assert IsPred(data, Inst(p, |d.Insts(p)| - 1), b);
  }
}
