/** What a function does: a small-step semantics of blocks with parameters. */
module Semantics {
  import opened IR

  type Env = map<Value, int>

  /** One executed instruction: what it is, what it read, what it produced. */
  datatype Event = Event(opcode: nat, args: seq<int>, results: seq<int>)

  datatype Config =
    | At(block: Block, pos: nat, env: Env, trace: seq<Event>)
    | Returned(values: seq<int>, trace: seq<Event>)

  predicate AllIn(vs: seq<Value>, env: Env) {
    forall v :: v in vs ==> v in env
  }

  function Read(env: Env, vs: seq<Value>): (xs: seq<int>)
    requires AllIn(vs, env)
    ensures |xs| == |vs| && forall i :: 0 <= i < |vs| ==> xs[i] == env[vs[i]]
  {
    if |vs| == 0 then [] else
      assert vs[0] in vs && forall v :: v in vs[1..] ==> v in vs;
      [env[vs[0]]] + Read(env, vs[1..])
  }

  /** `env` with the values `xs` assigned to `vs`, in order. */
  function Bind(env: Env, vs: seq<Value>, xs: seq<int>): (env': Env)
    requires |xs| == |vs|
    ensures forall v :: v in env' <==> v in env || v in vs
    decreases |vs|
  {
    if |vs| == 0 then env else Bind(env[vs[0] := xs[0]], vs[1..], xs[1..])
  }

  /** Control passes along `t`, its arguments becoming the parameters of the destination. */
  ghost predicate Jump(dfg: Dfg, c: Config, t: JumpTable, c': Config)
    requires c.At?
  {
    && t.dest < dfg.NumBlocks() && |t.args| == |dfg.Params(t.dest)| && AllIn(t.args, c.env)
    && c' == At(t.dest, 0, Bind(c.env, dfg.Params(t.dest), Read(c.env, t.args)), c.trace)
  }

  /** An ordinary instruction may produce any results. */
  ghost predicate OpStep(c: Config, node: InstNode, xs: seq<int>, c': Config)
    requires c.At? && node.data.Op?
  {
    && AllIn(node.data.args, c.env) && |xs| == |node.results|
    && c' == At(c.block, c.pos + 1, Bind(c.env, node.results, xs),
                c.trace + [Event(node.data.opcode, Read(c.env, node.data.args), xs)])
  }

  function SelectArm(x: int, arms: seq<(nat, Block)>, fallback: Block): Block {
    if |arms| == 0 then fallback else if arms[0].0 == x then arms[0].1 else SelectArm(x, arms[1..], fallback)
  }

  /** The edge a branch takes. */
  function Chosen(data: Instruction, env: Env): (t: Option<JumpTable>)
    ensures t.Some? ==> data.Br? || data.CondBr? || data.Switch?
  {
    match data
    case Br(t) => Some(t)
    case CondBr(cond, t, e) => if cond !in env then None else if env[cond] != 0 then Some(t) else Some(e)
    case Switch(arg, arms, fallback) =>
      if arg !in env then None else Some(JumpTable(SelectArm(env[arg], arms, fallback), []))
    case _ => None
  }

  ghost predicate Step(dfg: Dfg, c: Config, c': Config) {
    && c.At? && dfg.HasInst(Inst(c.block, c.pos))
    && var node := dfg.InstAt(Inst(c.block, c.pos));
    match node.data
    case Op(_, _) => exists xs :: OpStep(c, node, xs, c')
    case Ret(args) => AllIn(args, c.env) && c' == Returned(Read(c.env, args), c.trace)
    case RetImm(imm) => c' == Returned([imm], c.trace)
    case Unreachable => false
    case _ => Chosen(node.data, c.env).Some? && Jump(dfg, c, Chosen(node.data, c.env).value, c')
  }

  /** The function has been called: exactly the entry parameters are assigned. */
  ghost predicate Init(dfg: Dfg, c: Config) {
    && c.At? && c.block == dfg.entry && c.pos == 0 && c.trace == []
    && forall v :: v in c.env <==> v in dfg.Params(dfg.entry)
  }

  ghost predicate IsRun(dfg: Dfg, cs: seq<Config>) {
    && |cs| > 0
    && if |cs| == 1 then Init(dfg, cs[0]) else Step(dfg, cs[|cs| - 2], cs[|cs| - 1]) && IsRun(dfg, cs[..|cs| - 1])
  }

  /** Some run leads to `c`. */
  ghost predicate Reaches(dfg: Dfg, c: Config) {
    exists cs :: IsRun(dfg, cs) && cs[|cs| - 1] == c
  }

  lemma ReachesInit(dfg: Dfg, c: Config)
    requires Init(dfg, c)
    ensures Reaches(dfg, c)
  {
    assert IsRun(dfg, [c]);
  }

  lemma ReachesStep(dfg: Dfg, c: Config, c': Config)
    requires Reaches(dfg, c) && Step(dfg, c, c')
    ensures Reaches(dfg, c')
  {
    var cs :| IsRun(dfg, cs) && cs[|cs| - 1] == c;
    var cs' := cs + [c'];
    assert cs'[..|cs'| - 1] == cs;
    assert IsRun(dfg, cs');
  }

  /** The chosen edge is one of the edges of the block. */
  lemma {:induction false} SelectArmTarget(x: int, arms: seq<(nat, Block)>, fallback: Block)
    ensures SelectArm(x, arms, fallback) == fallback || exists k ::
        0 <= k < |arms| && arms[k].1 == SelectArm(x, arms, fallback)
  {
    if |arms| > 0 && arms[0].0 != x {
      SelectArmTarget(x, arms[1..], fallback);
      if k :| 0 <= k < |arms[1..]| && arms[1..][k].1 == SelectArm(x, arms[1..], fallback) {
        assert arms[k + 1].1 == arms[1..][k].1;
      }
    }
  }

  lemma ChosenIsTarget(data: Instruction, env: Env)
    requires Chosen(data, env).Some?
    ensures Chosen(data, env).value in data.Targets()
  {
    match data
    case Br(t) =>
    case CondBr(_, t, e) =>
      assert data.Targets()[0] == t && data.Targets()[1] == e;
    case Switch(arg, arms, fallback) =>
      SelectArmTarget(env[arg], arms, fallback);
      var jts := data.Targets();
      assert jts == ArmTargets(arms) + [JumpTable(fallback, [])];
      var d := SelectArm(env[arg], arms, fallback);
      if d == fallback {
        assert jts[|arms|] == JumpTable(d, []);
      } else {
        var k :| 0 <= k < |arms| && arms[k].1 == d;
        assert jts[k] == JumpTable(d, []);
      }
  }
}
