/** The part of the HIR that the control-flow analyses read: blocks with parameters, instructions
    with results, and the branch that ends a block.

    An instruction is identified by its place (block and position), so `inst_block` is a projection
    and `pp_cmp` compares positions.  A block is attached to the function exactly when its index is
    below `NumBlocks()`. */
module IR {

  datatype Option<+T> = None | Some(value: T)

  type Block = nat
  type Value = nat

  /** Types, of which only those that branches ask for by name matter here. */
  type TypeId = nat

  const TYPE_I1: TypeId := 0
  const TYPE_U32: TypeId := 1

  datatype Inst = Inst(block: Block, pos: nat)

  datatype Ordering = Less | Equal | Greater

  function Cmp(a: int, b: int): Ordering {
    if a < b then Less else if a == b then Equal else Greater
  }

  datatype JumpTable = JumpTable(dest: Block, args: seq<Value>)

  /** The edges of the arms of a switch; they pass no arguments. */
  function ArmTargets(arms: seq<(nat, Block)>): (jts: seq<JumpTable>)
    ensures |jts| == |arms|
    ensures forall i :: 0 <= i < |arms| ==> jts[i] == JumpTable(arms[i].1, [])
  {
    if |arms| == 0 then [] else [JumpTable(arms[0].1, [])] + ArmTargets(arms[1..])
  }

  function DestsOf(jts: seq<JumpTable>): (bs: seq<Block>)
    ensures |bs| == |jts|
    ensures forall i :: 0 <= i < |jts| ==> bs[i] == jts[i].dest
  {
    if |jts| == 0 then [] else [jts[0].dest] + DestsOf(jts[1..])
  }

  datatype Instruction =
    | Op(opcode: nat, args: seq<Value>)
    | Br(target: JumpTable)
    | CondBr(cond: Value, thenDest: JumpTable, elseDest: JumpTable)
    | Switch(arg: Value, arms: seq<(nat, Block)>, fallback: Block)
    | Ret(args: seq<Value>)
    | RetImm(imm: int)
    | Unreachable
  {
    predicate IsTerminator() {
      !Op?
    }

    /** Values used directly, the arguments passed along branch edges excluded. */
    function Arguments(): seq<Value> {
      match this
      case Op(_, args) => args
      case CondBr(cond, _, _) => [cond]
      case Switch(arg, _, _) => [arg]
      case Ret(args) => args
      case _ => []
    }

    function AnalyzeBranch(): BranchInfo {
      match this
      case Br(t) => SingleDest(t)
      case CondBr(_, t, e) => MultiDest([t, e])
      case Switch(_, arms, fallback) =>
        MultiDest(ArmTargets(arms) + [JumpTable(fallback, [])])
      case _ => NotABranch
    }

    /** The outgoing edges, in the order of the branch instruction. */
    function Targets(): seq<JumpTable> {
      match AnalyzeBranch()
      case NotABranch => []
      case SingleDest(t) => [t]
      case MultiDest(jts) => jts
    }

    /** Every value the instruction reads, branch arguments included. */
    ghost predicate Uses(v: Value) {
      v in Arguments() || exists t :: t in Targets() && v in t.args
    }
  }

  datatype BranchInfo =
    | NotABranch
    | SingleDest(target: JumpTable)
    | MultiDest(targets: seq<JumpTable>)

  datatype InstNode = InstNode(data: Instruction, results: seq<Value>)

  datatype BlockData = BlockData(params: seq<Value>, insts: seq<InstNode>)

  /** Where a value is defined. */
  datatype ValueData =
    | Param(block: Block)
    | Result(inst: Inst)

  datatype ProgramPoint =
    | AtBlock(block: Block)
    | AtInst(inst: Inst)
  {
    function PPBlock(): Block {
      if AtBlock? then block else inst.block
    }

    /** The sequence number `pp_cmp` compares: 0 for the block header, then one per instruction. */
    function Seq(): nat {
      if AtBlock? then 0 else inst.pos + 1
    }
  }

  /** Order of two points of the same block. */
  function PpCmp(a: ProgramPoint, b: ProgramPoint): Ordering
    requires a.PPBlock() == b.PPBlock()
  {
    Cmp(a.Seq(), b.Seq())
  }

  datatype Dfg = Dfg(entry: Block, blocks: seq<BlockData>, values: map<Value, ValueData>, types: map<Value, TypeId>) {

    function TypeOf(v: Value): Option<TypeId> {
      if v in types then Some(types[v]) else None
    }

    function NumBlocks(): nat {
      |blocks|
    }

    function Insts(b: Block): seq<InstNode> {
      if b < |blocks| then blocks[b].insts else []
    }

    function Params(b: Block): seq<Value> {
      if b < |blocks| then blocks[b].params else []
    }

    function LastInst(b: Block): Option<Inst> {
      if |Insts(b)| == 0 then None else Some(Inst(b, |Insts(b)| - 1))
    }

    /** The branch targets of the last instruction of `b`. */
    function Targets(b: Block): seq<JumpTable> {
      if |Insts(b)| == 0 then [] else Insts(b)[|Insts(b)| - 1].data.Targets()
    }

    function Destinations(b: Block): seq<Block> {
      DestsOf(Targets(b))
    }

    predicate HasInst(i: Inst) {
      i.pos < |Insts(i.block)|
    }

    function InstAt(i: Inst): InstNode
      requires HasInst(i)
    {
      Insts(i.block)[i.pos]
    }

    predicate HasPoint(pp: ProgramPoint) {
      match pp
      case AtBlock(b) => b < |blocks|
      case AtInst(i) => HasInst(i)
    }

    /** Branches only mention attached blocks, and the entry block is attached. */
    predicate WellFormed() {
      && entry < |blocks|
      && forall b: Block, t {:trigger t in Targets(b)} :: b < |blocks| && t in Targets(b) ==> t.dest < |blocks|
    }
  }
}
