/** The validation rules on which execution relies: block shape, definitions before uses, and
    the arguments of branches. */
module Validation {
  import opened IR
  import opened Graphs
  import opened ControlFlow
  import opened Dominance
  import opened Semantics

  datatype Verdict =
    | Accepted
    | InvalidBlock(block: Block)
    | InvalidInstruction(inst: Inst)
    | TypeError(inst: Inst)

  /** The bookkeeping of the data flow graph: every value that is read is known, is defined where its
      data says unless that is in a detached block, and branches define nothing. */
  ghost predicate Consistent(dfg: Dfg) {
    && dfg.entry < dfg.NumBlocks()
    && (forall i: Inst, v: Value {:trigger UsedBy(dfg, i, v)} ::
          UsedBy(dfg, i, v) ==> v in dfg.values && DefinedThere(dfg, v, dfg.values[v]))
    && (forall i: Inst {:trigger dfg.HasInst(i)} ::
          dfg.HasInst(i) && dfg.InstAt(i).data.IsTerminator() ==> dfg.InstAt(i).results == [])
  }

  ghost predicate UsedBy(dfg: Dfg, i: Inst, v: Value) {
    dfg.HasInst(i) && dfg.InstAt(i).data.Uses(v)
  }

  predicate DefinedThere(dfg: Dfg, v: Value, def: ValueData) {
    match def
    case Param(b) => b < dfg.NumBlocks() ==> v in dfg.Params(b)
    case Result(i) => i.block < dfg.NumBlocks() ==> dfg.HasInst(i) && v in dfg.InstAt(i).results
  }

  // The rules

  /** Not empty, a terminator at the end and nowhere else, attached and distinct successors. */
  ghost predicate BlockOk(dfg: Dfg, b: Block) {
    var insts := dfg.Insts(b);
    && |insts| > 0
    && (forall k :: 0 <= k < |insts| ==> (insts[k].data.IsTerminator() <==> k == |insts| - 1))
    && (forall t :: t in dfg.Targets(b) ==> t.dest < dfg.NumBlocks())
    && (insts[|insts| - 1].data.AnalyzeBranch().MultiDest? ==> DistinctDests(dfg.Targets(b)))
  }

  predicate DistinctDests(jts: seq<JumpTable>) {
    forall i, j :: 0 <= i < j < |jts| ==> jts[i].dest != jts[j].dest
  }

  /** The definition of `v` reaches its use by instruction `i`. */
  ghost predicate UseOk(dfg: Dfg, i: Inst, v: Value)
    requires v in dfg.values
  {
    match dfg.values[v]
    case Param(d) => d == i.block || DominatesSpec(dfg, AtBlock(d), AtBlock(i.block))
    case Result(j) => DominatesSpec(dfg, AtInst(j), AtInst(i))
  }

  ghost predicate InstUsesOk(dfg: Dfg, i: Inst)
    requires dfg.HasInst(i)
  {
    forall v: Value {:trigger UsedBy(dfg, i, v)} ::
      UsedBy(dfg, i, v) ==> v !in dfg.InstAt(i).results && v in dfg.values && UseOk(dfg, i, v)
  }

  /** All values read in the block are defined on every path to where they are read. */
  ghost predicate UsesOk(dfg: Dfg, b: Block) {
    forall k: nat {:trigger Inst(b, k)} :: k < |dfg.Insts(b)| ==> InstUsesOk(dfg, Inst(b, k))
  }

  /** Branches pass what their destinations take. */
  ghost predicate TypesOk(dfg: Dfg, b: Block) {
    forall k :: 0 <= k < |dfg.Insts(b)| ==> InstTypesOk(dfg, dfg.Insts(b)[k].data)
  }

  /** As many arguments as parameters, and of the same types. */
  predicate ArgsOk(dfg: Dfg, t: JumpTable) {
    && |t.args| == |dfg.Params(t.dest)|
    && forall k :: 0 <= k < |t.args| ==> dfg.TypeOf(t.args[k]) == dfg.TypeOf(dfg.Params(t.dest)[k])
  }

  /** What a branch decides on has the type for it. */
  predicate OperandOk(dfg: Dfg, data: Instruction) {
    match data
    case CondBr(cond, _, _) => dfg.TypeOf(cond) == Some(TYPE_I1)
    case Switch(arg, _, _) => dfg.TypeOf(arg) == Some(TYPE_U32)
    case _ => true
  }

  /** A switch passes no arguments; its arms also must have different keys. */
  predicate InstTypesOk(dfg: Dfg, data: Instruction) {
    && OperandOk(dfg, data)
    && (forall t :: t in data.Targets() ==> ArgsOk(dfg, t))
    && (data.Switch? ==> DistinctKeys(data.arms))
  }

  predicate DistinctKeys(arms: seq<(nat, Block)>) {
    forall i, j :: 0 <= i < j < |arms| ==> arms[i].0 != arms[j].0
  }

  ghost predicate ValidFunction(dfg: Dfg) {
    forall b: Block {:trigger BlockOk(dfg, b)} ::
      b < dfg.NumBlocks() ==> BlockOk(dfg, b) && UsesOk(dfg, b) && TypesOk(dfg, b)
  }

  /** A branch goes to attached blocks, and a branch with several edges to different ones. */
  ghost predicate SuccessorsOk(dfg: Dfg, data: Instruction) {
    && (forall t :: t in data.Targets() ==> t.dest < dfg.NumBlocks())
    && (data.AnalyzeBranch().MultiDest? ==> DistinctDests(data.Targets()))
  }

  /** What a rejection points at does break a rule. */
  ghost predicate Blames(dfg: Dfg, verdict: Verdict) {
    match verdict
    case Accepted => true
    case InvalidBlock(b) => b < dfg.NumBlocks() && !BlockOk(dfg, b)
    case InvalidInstruction(i) =>
      dfg.HasInst(i) &&
      (!SuccessorsOk(dfg, dfg.InstAt(i).data) || !InstUsesOk(dfg, i) ||
       (dfg.InstAt(i).data.Switch? && !InstTypesOk(dfg, dfg.InstAt(i).data)))
    case TypeError(i) =>
      dfg.HasInst(i) &&
      (!OperandOk(dfg, dfg.InstAt(i).data) || (!dfg.InstAt(i).data.Switch? && !InstTypesOk(dfg, dfg.InstAt(i).data)))
  }

  /** Control that follows `p` to instruction `i` has met the definition. */
  predicate Met(p: seq<Block>, i: Inst, def: ValueData) {
    match def
    case Param(d) => d in p
    case Result(j) => |p| > 0 && (j.block in p[..|p| - 1] || (j.block == i.block && j.pos <= i.pos))
  }

  /** The definition stands in the block of `i`, not after it. */
  predicate MetHere(i: Inst, def: ValueData) {
    match def
    case Param(d) => d == i.block
    case Result(j) => j.block == i.block && j.pos <= i.pos
  }

  ghost predicate MetOnAllPaths(dfg: Dfg, i: Inst, def: ValueData) {
    forall p {:trigger PathTo(GraphOf(dfg), dfg.entry, p, i.block)} ::
      PathTo(GraphOf(dfg), dfg.entry, p, i.block) ==> Met(p, i, def)
  }

  /** A use is accepted exactly if its definition is met on every path to it; where control cannot get, only
      definitions in the same block are accepted. */
  lemma UseRuleIff(dfg: Dfg, i: Inst, v: Value)
    requires v in dfg.values
    ensures UseOk(dfg, i, v) <==> if Reachable(GraphOf(dfg), i.block) then MetOnAllPaths(dfg, i, dfg.values[v])
                                  else MetHere(i, dfg.values[v])
  {
    hide GraphOf, Edge, Reachable;
    var def := dfg.values[v];
    forall p | PathTo(GraphOf(dfg), dfg.entry, p, i.block)
      ensures |p| > 0 && (Met(p, i, def) <==> PassesDef(p, i, def))
    {
      MetIsPassed(p, i, def);
    }
  }

  ghost predicate PassesDef(p: seq<Block>, i: Inst, def: ValueData)
    requires |p| > 0
  {
    match def
    case Param(d) => Passes(p, AtBlock(d), AtBlock(i.block))
    case Result(j) => Passes(p, AtInst(j), AtInst(i))
  }

  lemma MetIsPassed(p: seq<Block>, i: Inst, def: ValueData)
    requires |p| > 0 && Last(p) == i.block
    ensures Met(p, i, def) <==> PassesDef(p, i, def)
  {
    assert p == Front(p) + [i.block];
  }

  function DefBlock(def: ValueData): Block {
    match def
    case Param(b) => b
    case Result(i) => i.block
  }

  lemma UseOkIsAttached(dfg: Dfg, i: Inst, v: Value)
    requires UsedBy(dfg, i, v) && v in dfg.values && UseOk(dfg, i, v)
    ensures DefBlock(dfg.values[v]) < dfg.NumBlocks()
  {
    hide GraphOf, IsPath;
    var d := DefBlock(dfg.values[v]);
    if d != i.block {
      var p: seq<nat> :| PathTo(GraphOf(dfg), dfg.entry, p, i.block);
      var k :| 0 <= k < |Front(p)| && Front(p)[k] == d;
      PathVertex(GraphOf(dfg), p, k);
    }
  }

  lemma ValidUse(dfg: Dfg, i: Inst, v: Value)
    requires ValidFunction(dfg) && UsedBy(dfg, i, v)
    ensures v in dfg.values && UseOk(dfg, i, v)
  {
    assert BlockOk(dfg, i.block);
    assert InstUsesOk(dfg, Inst(i.block, i.pos));
  }

  /** Using a value of a detached block makes a function invalid. */
  lemma DetachedUseRejected(dfg: Dfg, i: Inst, v: Value)
    requires UsedBy(dfg, i, v) && v in dfg.values && DefBlock(dfg.values[v]) >= dfg.NumBlocks()
    ensures !ValidFunction(dfg)
  {
    if ValidFunction(dfg) {
      ValidUse(dfg, i, v);
      UseOkIsAttached(dfg, i, v);
    }
  }

  // Accepted functions run safely

  /** Everything defined on the way along `p` up to position `pos` of its last block is assigned. */
  ghost predicate Covers(dfg: Dfg, p: seq<Block>, pos: nat, env: Env)
    requires |p| > 0
  {
    && (forall k: nat {:trigger p[k]} :: k < |p| ==> forall v :: v in dfg.Params(p[k]) ==> v in env)
    && (forall k: nat, m: nat, v {:trigger DefinesAt(dfg, p[k], m, v)} ::
          k < |p| - 1 && DefinesAt(dfg, p[k], m, v) ==> v in env)
    && (forall m: nat, v {:trigger DefinesAt(dfg, Last(p), m, v)} ::
          m < pos && DefinesAt(dfg, Last(p), m, v) ==> v in env)
  }

  predicate DefinesAt(dfg: Dfg, b: Block, m: nat, v: Value) {
    m < |dfg.Insts(b)| && v in dfg.Insts(b)[m].results
  }

  /** Moving past an ordinary instruction. */
  lemma CoversOp(dfg: Dfg, p: seq<Block>, pos: nat, env: Env, env': Env)
    requires |p| > 0 && Covers(dfg, p, pos, env) && pos < |dfg.Insts(Last(p))|
    requires forall v :: v in env' <==> v in env || v in dfg.Insts(Last(p))[pos].results
    ensures Covers(dfg, p, pos + 1, env')
  {
  }

  /** Leaving a block through its last instruction. */
  lemma CoversJump(dfg: Dfg, p: seq<Block>, pos: nat, env: Env, env': Env, d: Block)
    requires |p| > 0 && Covers(dfg, p, pos, env) && pos == |dfg.Insts(Last(p))| - 1
    requires dfg.Insts(Last(p))[pos].results == []
    requires forall v :: v in env' <==> v in env || v in dfg.Params(d)
    ensures Covers(dfg, p + [d], 0, env')
  {
    var q := p + [d];
    forall k: nat, m: nat, v | k < |q| - 1 && DefinesAt(dfg, q[k], m, v) ensures v in env' {
      assert q[k] == p[k];
      if k == |p| - 1 {
        assert m < pos;
      }
    }
    forall k: nat, v | k < |q| && v in dfg.Params(q[k]) ensures v in env' {
      if k < |p| {
        assert q[k] == p[k];
      }
    }
  }

  /** What a run has assigned, and the path it has taken. */
  lemma {:induction false} RunCovers(dfg: Dfg, cs: seq<Config>) returns (p: seq<Block>)
    requires Consistent(dfg) && ValidFunction(dfg) && IsRun(dfg, cs) && cs[|cs| - 1].At?
    ensures var c := cs[|cs| - 1];
            && PathTo(GraphOf(dfg), dfg.entry, p, c.block)
            && c.pos < |dfg.Insts(c.block)| && Covers(dfg, p, c.pos, c.env)
    decreases |cs|
  {
    var c' := cs[|cs| - 1];
    if |cs| == 1 {
      p := [dfg.entry];
      assert BlockOk(dfg, dfg.entry);
      assert IsPath(GraphOf(dfg), p);
    } else {
      var c := cs[|cs| - 2];
      p := RunCovers(dfg, cs[..|cs| - 1]);
      p := StepCovers(dfg, c, c', p);
    }
  }

  lemma StepCovers(dfg: Dfg, c: Config, c': Config, p: seq<Block>) returns (p': seq<Block>)
    requires Consistent(dfg) && ValidFunction(dfg) && Step(dfg, c, c') && c'.At?
    requires PathTo(GraphOf(dfg), dfg.entry, p, c.block) && Covers(dfg, p, c.pos, c.env)
    ensures PathTo(GraphOf(dfg), dfg.entry, p', c'.block)
    ensures c'.pos < |dfg.Insts(c'.block)| && Covers(dfg, p', c'.pos, c'.env)
  {
    var i := Inst(c.block, c.pos);
    var node := dfg.InstAt(i);
    ReachableInRange(GraphOf(dfg), c.block) by {
      assert Reachable(GraphOf(dfg), c.block);
    }
    assert BlockOk(dfg, c.block);
    if node.data.Op? {
      var xs :| OpStep(c, node, xs, c');
      p' := p;
      CoversOp(dfg, p, c.pos, c.env, c'.env);
    } else {
      assert c.pos == |dfg.Insts(c.block)| - 1 && dfg.HasInst(i);
      var t := Chosen(node.data, c.env).value;
      ChosenIsTarget(node.data, c.env);
      EdgeIff(dfg, c.block, t.dest);
      PathExtend(GraphOf(dfg), p, t.dest);
      CoversJump(dfg, p, c.pos, c.env, c'.env, t.dest);
      assert BlockOk(dfg, t.dest);
      p' := p + [t.dest];
    }
  }

  /** A value whose definition dominates its use is assigned when the use is reached. */
  lemma UseIsAssigned(dfg: Dfg, p: seq<Block>, i: Inst, env: Env, v: Value)
    requires Consistent(dfg) && PathTo(GraphOf(dfg), dfg.entry, p, i.block)
    requires UsedBy(dfg, i, v) && Covers(dfg, p, i.pos, env)
    requires v in dfg.values && v !in dfg.InstAt(i).results && UseOk(dfg, i, v)
    ensures v in env
  {
    assert DefinedThere(dfg, v, dfg.values[v]);
    assert Reachable(GraphOf(dfg), i.block);
    match dfg.values[v] {
      case Param(d) =>
        if d == i.block {
          ParamIsAssigned(dfg, p, |p| - 1, d, i.pos, env, v);
        } else {
          assert Passes(p, AtBlock(d), AtBlock(i.block));
          var k :| 0 <= k < |Front(p)| && Front(p)[k] == d;
          ParamIsAssigned(dfg, p, k, d, i.pos, env, v);
        }
      case Result(j) =>
        assert Passes(p, AtInst(j), AtInst(i));
        ResultIsAssigned(dfg, p, i, j, env, v);
    }
  }

  lemma {:induction false} ParamIsAssigned(dfg: Dfg, p: seq<Block>, k: nat, d: Block, pos: nat, env: Env, v: Value)
    requires IsPath(GraphOf(dfg), p) && k < |p| && p[k] == d && Covers(dfg, p, pos, env)
    requires DefinedThere(dfg, v, Param(d))
    ensures v in env
  {
    hide IsPath;
    PathVertex(GraphOf(dfg), p, k);
  }

  lemma CoversDefined(dfg: Dfg, p: seq<Block>, pos: nat, env: Env, k: nat, m: nat, v: Value)
    requires k < |p| && Covers(dfg, p, pos, env) && DefinesAt(dfg, p[k], m, v)
    requires k < |p| - 1 || m < pos
    ensures v in env
  {
    hide DefinesAt;
    assert k == |p| - 1 ==> Last(p) == p[k];
  }

  /** The place on the path at which an instruction before `i` is met. */
  lemma PassedAt(p: seq<Block>, i: Inst, j: Inst) returns (k: nat)
    requires |p| > 0 && Last(p) == i.block && Passes(p, AtInst(j), AtInst(i))
    ensures k < |p| && p[k] == j.block && (k < |p| - 1 || j.pos <= i.pos)
  {
    k := |p| - 1;
    if j.block in Front(p) {
      k :| 0 <= k < |Front(p)| && Front(p)[k] == j.block;
    }
  }

  lemma ResultIsAssigned(dfg: Dfg, p: seq<Block>, i: Inst, j: Inst, env: Env, v: Value)
    requires |p| > 0 && PathTo(GraphOf(dfg), dfg.entry, p, i.block) && Passes(p, AtInst(j), AtInst(i))
    requires Covers(dfg, p, i.pos, env) && DefinedThere(dfg, v, Result(j))
    requires dfg.HasInst(i) && v !in dfg.InstAt(i).results
    ensures v in env
  {
    hide IsPath, Covers, Passes, GraphOf;
    var k := PassedAt(p, i, j);
    PathVertex(GraphOf(dfg), p, k);
    CoversDefined(dfg, p, i.pos, env, k, j.pos, v);
  }

  ghost predicate CanStep(dfg: Dfg, c: Config) {
    exists c' :: Step(dfg, c, c')
  }

  /** At an instruction all of whose operands are assigned, and which is not blocked. */
  ghost predicate SafeAt(dfg: Dfg, c: Config)
    requires c.At?
  {
    && dfg.HasInst(Inst(c.block, c.pos))
    && (forall v: Value {:trigger UsedBy(dfg, Inst(c.block, c.pos), v)} ::
          UsedBy(dfg, Inst(c.block, c.pos), v) ==> v in c.env)
    && (dfg.InstAt(Inst(c.block, c.pos)).data == Unreachable || CanStep(dfg, c))
  }

  /** A validated function never reads an unassigned value and never gets stuck, in runs of any length. */
  lemma ValidRunsAreSafe(dfg: Dfg, c: Config)
    requires Consistent(dfg) && ValidFunction(dfg) && Reaches(dfg, c)
    ensures c.At? ==> SafeAt(dfg, c)
  {
    if c.At? {
      var cs :| IsRun(dfg, cs) && cs[|cs| - 1] == c;
      var p := RunCovers(dfg, cs);
      var i := Inst(c.block, c.pos);
      ReachableInRange(GraphOf(dfg), c.block) by {
        assert Reachable(GraphOf(dfg), c.block);
      }
      assert BlockOk(dfg, c.block);
      assert InstUsesOk(dfg, i);
      forall v: Value | UsedBy(dfg, i, v) ensures v in c.env {
        UseIsAssigned(dfg, p, i, c.env, v);
      }
      AssignedCanStep(dfg, c);
    }
  }

  lemma TargetArgsAssigned(dfg: Dfg, i: Inst, t: JumpTable, env: Env)
    requires dfg.HasInst(i) && t in dfg.InstAt(i).data.Targets()
    requires forall v: Value {:trigger UsedBy(dfg, i, v)} :: UsedBy(dfg, i, v) ==> v in env
    ensures AllIn(t.args, env)
  {
    forall v | v in t.args ensures v in env {
      assert UsedBy(dfg, i, v);
    }
  }

  lemma AssignedCanStep(dfg: Dfg, c: Config)
    requires c.At? && dfg.HasInst(Inst(c.block, c.pos)) && BlockOk(dfg, c.block) && TypesOk(dfg, c.block)
    requires forall v: Value {:trigger UsedBy(dfg, Inst(c.block, c.pos), v)} ::
        UsedBy(dfg, Inst(c.block, c.pos), v) ==> v in c.env
    ensures dfg.InstAt(Inst(c.block, c.pos)).data == Unreachable || CanStep(dfg, c)
  {
    var i := Inst(c.block, c.pos);
    var node := dfg.InstAt(i);
    forall v | v in node.data.Arguments() ensures v in c.env {
      assert UsedBy(dfg, i, v);
    }
    match node.data {
      case Op(opcode, args) =>
        var xs := seq(|node.results|, _ => 0);
        var event := Event(opcode, Read(c.env, args), xs);
        var c' := At(c.block, c.pos + 1, Bind(c.env, node.results, xs), c.trace + [event]);
        assert OpStep(c, node, xs, c');
        assert Step(dfg, c, c');
      case Ret(args) =>
        assert Step(dfg, c, Returned(Read(c.env, args), c.trace));
      case RetImm(imm) =>
        assert Step(dfg, c, Returned([imm], c.trace));
      case Unreachable =>
      case _ =>
        assert Chosen(node.data, c.env).Some?;
        var t := Chosen(node.data, c.env).value;
        ChosenIsTarget(node.data, c.env);
        TargetArgsAssigned(dfg, i, t, c.env);
        assert c.pos == |dfg.Insts(c.block)| - 1;
        var c' := At(t.dest, 0, Bind(c.env, dfg.Params(t.dest), Read(c.env, t.args)), c.trace);
        assert Step(dfg, c, c');
    }
  }

  // The validator

  class FunctionValidator {
    var domtree: DominatorTree
    var cfg: ControlFlowGraph

    constructor ()
      ensures fresh(domtree) && fresh(cfg) && domtree.stack == []
    {
      domtree := new DominatorTree();
      cfg := new ControlFlowGraph();
    }

    /** Checks every block's shape first; only then are the analyses computed and the uses and
        branch arguments checked. */
    method Validate(dfg: Dfg) returns (verdict: Verdict)
      requires Consistent(dfg) && domtree.stack == []
      modifies domtree, cfg
      ensures verdict == Accepted <==> ValidFunction(dfg)
      ensures Blames(dfg, verdict)
      ensures domtree.stack == []
    {
      hide *;
      EntryAttached(dfg);
      var n := |dfg.blocks|;
      var b := 0;
      while b < n
        invariant 0 <= b <= n && domtree.stack == []
        invariant forall x: Block {:trigger BlockOk(dfg, x)} :: x < b ==> BlockOk(dfg, x)
      {
        verdict := ValidateBlock(dfg, b);
        if verdict != Accepted {
          RejectedAt(dfg, b);
          return;
        }
        b := b + 1;
      }
      ShapeGivesWellFormed(dfg);
      cfg.Compute(dfg);
      var _ := domtree.Compute(dfg, cfg);
      b := 0;
      while b < n
        invariant 0 <= b <= n && domtree.stack == [] && domtree.Describes(dfg)
        invariant forall x: Block {:trigger UsesOk(dfg, x)} :: x < b ==> UsesOk(dfg, x)
        invariant forall x: Block {:trigger TypesOk(dfg, x)} :: x < b ==> TypesOk(dfg, x)
      {
        verdict := ValidateUses(dfg, b);
        if verdict != Accepted {
          RejectedAt(dfg, b);
          return;
        }
        verdict := ValidateTypes(dfg, b);
        if verdict != Accepted {
          RejectedAt(dfg, b);
          return;
        }
        b := b + 1;
      }
      AllAccepted(dfg);
      verdict := Accepted;
      AcceptedBlamesNothing(dfg);
    }

    method ValidateBlock(dfg: Dfg, b: Block) returns (verdict: Verdict)
      requires b < |dfg.blocks|
      ensures verdict == Accepted <==> BlockOk(dfg, b)
      ensures Blames(dfg, verdict)
    {
      var insts := dfg.Insts(b);
      if |insts| == 0 {
        return InvalidBlock(b);
      }
      var terminator := insts[|insts| - 1].data;
      if !terminator.IsTerminator() {
        return InvalidBlock(b);
      }
      match terminator.AnalyzeBranch() {
        case NotABranch =>
        case SingleDest(t) =>
          assert t in dfg.Targets(b);
          if t.dest >= dfg.NumBlocks() {
            return InvalidInstruction(Inst(b, |insts| - 1));
          }
        case MultiDest(jts) =>
          var ok := CheckSuccessors(jts, dfg.NumBlocks());
          if !ok {
            return InvalidInstruction(Inst(b, |insts| - 1));
          }
      }
      var k := 0;
      while k < |insts|
        invariant 0 <= k <= |insts|
        invariant forall j :: 0 <= j < k ==> (insts[j].data.IsTerminator() <==> j == |insts| - 1)
      {
        if insts[k].data.IsTerminator() && k != |insts| - 1 {
          return InvalidBlock(b);
        }
        k := k + 1;
      }
      verdict := Accepted;
    }

    /** Successors must be attached, and none may occur twice. */
    method CheckSuccessors(jts: seq<JumpTable>, n: nat) returns (ok: bool)
      requires |jts| > 0
      ensures ok <==> (forall t :: t in jts ==> t.dest < n) && DistinctDests(jts)
    {
      var seen: seq<Block> := [];
      var k := 0;
      while k < |jts|
        invariant 0 <= k <= |jts| && |seen| == k
        invariant forall j :: 0 <= j < k ==> jts[j].dest < n && seen[j] == jts[j].dest
        invariant forall i, j :: 0 <= i < j < k ==> jts[i].dest != jts[j].dest
      {
        if jts[k].dest >= n || jts[k].dest in seen {
          assert jts[k] in jts;
          return false;
        }
        seen := seen + [jts[k].dest];
        k := k + 1;
      }
      ok := true;
    }

    /** Every value read in the block is dominated by its definition. */
    method ValidateUses(dfg: Dfg, b: Block) returns (verdict: Verdict)
      requires Consistent(dfg) && domtree.Describes(dfg) && b < |dfg.blocks|
      ensures verdict == Accepted <==> UsesOk(dfg, b)
      ensures Blames(dfg, verdict)
    {
      hide InstUsesOk, IsDomTree, Consistent, BlockOk, SuccessorsOk;
      var k := 0;
      while k < |dfg.Insts(b)|
        invariant 0 <= k <= |dfg.Insts(b)|
        invariant forall j: nat {:trigger Inst(b, j)} :: j < k ==> InstUsesOk(dfg, Inst(b, j))
      {
        var ok := CheckUses(dfg, Inst(b, k));
        if !ok {
          return InvalidInstruction(Inst(b, k));
        }
        k := k + 1;
      }
      verdict := Accepted;
    }

    method CheckUses(dfg: Dfg, i: Inst) returns (ok: bool)
      requires Consistent(dfg) && domtree.Describes(dfg) && dfg.HasInst(i)
      ensures ok <==> InstUsesOk(dfg, i)
    {
      hide DominatesSpec;
      var node := dfg.InstAt(i);
      var defs := set v | v in node.results;
      var uses := UsesOf(node.data);
      CollectedUses(dfg, i, uses);
      if defs !! uses {
        var todo := uses;
        while todo != {}
          invariant todo <= uses
          invariant forall v :: v in uses - todo ==> v in dfg.values && UseOk(dfg, i, v)
          decreases todo
        {
          var v :| v in todo;
          assert UsedBy(dfg, i, v);
          var dominated := CheckUse(dfg, i, v);
          if !dominated {
            return false;
          }
          todo := todo - {v};
        }
        ok := true;
      } else {
        var v :| v in defs && v in uses;
        assert UsedBy(dfg, i, v) && v in node.results;
        ok := false;
      }
    }

    method CheckUse(dfg: Dfg, i: Inst, v: Value) returns (ok: bool)
      requires domtree.Describes(dfg) && dfg.HasInst(i) && v in dfg.values && DefinedThere(dfg, v, dfg.values[v])
      ensures ok <==> UseOk(dfg, i, v)
    {
      hide DominatesSpec, IsDomTree;
      match dfg.values[v] {
        case Param(d) =>
          if d == i.block {
            return true;
          }
          ok := domtree.Dominates(dfg, AtBlock(d), AtBlock(i.block));
        case Result(j) =>
          ok := domtree.Dominates(dfg, AtInst(j), AtInst(i));
      }
    }

    /** Branches pass the arguments their destinations take, and decide on operands of the right type. */
    method ValidateTypes(dfg: Dfg, b: Block) returns (verdict: Verdict)
      ensures verdict == Accepted <==> TypesOk(dfg, b)
      ensures Blames(dfg, verdict)
    {
      hide InstTypesOk, BlockOk, SuccessorsOk, InstUsesOk;
      var insts := dfg.Insts(b);
      var k := 0;
      while k < |insts|
        invariant 0 <= k <= |insts|
        invariant forall j :: 0 <= j < k ==> InstTypesOk(dfg, insts[j].data)
      {
        var ok := CheckTypes(dfg, insts[k].data);
        if !ok {
          return if insts[k].data.Switch? && OperandOk(dfg, insts[k].data) then InvalidInstruction(Inst(b, k))
            else TypeError(Inst(b, k));
        }
        k := k + 1;
      }
      verdict := Accepted;
    }

    method CheckTypes(dfg: Dfg, data: Instruction) returns (ok: bool)
      ensures ok <==> InstTypesOk(dfg, data)
    {
      if !OperandOk(dfg, data) {
        return false;
      }
      if data.Switch? {
        var distinct := CheckKeys(data.arms);
        if !distinct {
          return false;
        }
      }
      var jts := data.Targets();
      var m := 0;
      while m < |jts|
        invariant 0 <= m <= |jts|
        invariant forall j :: 0 <= j < m ==> ArgsOk(dfg, jts[j])
      {
        var passed := CheckArgs(dfg, jts[m]);
        if !passed {
          assert jts[m] in jts;
          return false;
        }
        m := m + 1;
      }
      ok := true;
    }

    method CheckArgs(dfg: Dfg, t: JumpTable) returns (ok: bool)
      ensures ok <==> ArgsOk(dfg, t)
    {
      var params := dfg.Params(t.dest);
      if |t.args| != |params| {
        return false;
      }
      var k := 0;
      while k < |params|
        invariant 0 <= k <= |params|
        invariant forall j :: 0 <= j < k ==> dfg.TypeOf(t.args[j]) == dfg.TypeOf(params[j])
      {
        if dfg.TypeOf(t.args[k]) != dfg.TypeOf(params[k]) {
          return false;
        }
        k := k + 1;
      }
      ok := true;
    }

    method CheckKeys(arms: seq<(nat, Block)>) returns (ok: bool)
      ensures ok <==> DistinctKeys(arms)
    {
      var seen: set<nat> := {};
      var k := 0;
      while k < |arms|
        invariant 0 <= k <= |arms|
        invariant forall x :: x in seen <==> exists j :: 0 <= j < k && arms[j].0 == x
        invariant forall i, j :: 0 <= i < j < k ==> arms[i].0 != arms[j].0
      {
        if arms[k].0 in seen {
          return false;
        }
        seen := seen + {arms[k].0};
        k := k + 1;
      }
      ok := true;
    }
  }

  lemma EntryAttached(dfg: Dfg)
    requires Consistent(dfg)
    ensures dfg.entry < dfg.NumBlocks() == |dfg.blocks|
  {
  }

  lemma AcceptedBlamesNothing(dfg: Dfg)
    ensures Blames(dfg, Accepted)
  {
  }

  lemma BlockRules(dfg: Dfg, b: Block)
    requires ValidFunction(dfg) && b < dfg.NumBlocks()
    ensures BlockOk(dfg, b) && UsesOk(dfg, b) && TypesOk(dfg, b)
  {
    hide BlockOk, UsesOk, TypesOk;
  }

  lemma RejectedAt(dfg: Dfg, b: Block)
    requires b < |dfg.blocks| && !(BlockOk(dfg, b) && UsesOk(dfg, b) && TypesOk(dfg, b))
    ensures !ValidFunction(dfg)
  {
    if ValidFunction(dfg) {
      BlockRules(dfg, b);
    }
  }

  lemma AllAccepted(dfg: Dfg)
    requires forall x: Block {:trigger BlockOk(dfg, x)} :: x < |dfg.blocks| ==> BlockOk(dfg, x)
    requires forall x: Block {:trigger UsesOk(dfg, x)} :: x < |dfg.blocks| ==> UsesOk(dfg, x)
    requires forall x: Block {:trigger TypesOk(dfg, x)} :: x < |dfg.blocks| ==> TypesOk(dfg, x)
    ensures ValidFunction(dfg)
  {
    hide BlockOk, UsesOk, TypesOk;
    forall x: Block | x < dfg.NumBlocks() ensures BlockOk(dfg, x) && UsesOk(dfg, x) && TypesOk(dfg, x) {
    }
  }

  /** The values an instruction reads, as a set. */
  function UsesOf(data: Instruction): (uses: set<Value>)
    ensures forall v :: v in uses <==> data.Uses(v)
  {
    (set v | v in data.Arguments()) + (set t, v | t in data.Targets() && v in t.args :: v)
  }

  lemma CollectedUses(dfg: Dfg, i: Inst, uses: set<Value>)
    requires dfg.HasInst(i) && uses == UsesOf(dfg.InstAt(i).data)
    ensures forall v: Value :: v in uses <==> UsedBy(dfg, i, v)
  {
  }

  lemma ShapeGivesWellFormed(dfg: Dfg)
    requires dfg.entry < dfg.NumBlocks()
    requires forall x: Block {:trigger BlockOk(dfg, x)} :: x < dfg.NumBlocks() ==> BlockOk(dfg, x)
    ensures dfg.WellFormed()
  {
    forall b: Block, t | b < dfg.NumBlocks() && t in dfg.Targets(b) ensures t.dest < dfg.NumBlocks() {
      assert BlockOk(dfg, b);
    }
  }
}
