/** What the type rules are for: in runs that start well typed, values keep to their types and branches
    decide on numbers they can handle. */
module Typing {
  import opened IR
  import opened Semantics
  import opened Validation

  /** Which numbers are values of which type. */
  type Meaning = (TypeId, int) -> bool

  predicate IsBit(x: int) {
    x == 0 || x == 1
  }

  predicate IsWord(x: int) {
    0 <= x < 0x1_0000_0000
  }

  /** Types mean anything, but `i1` and `u32` what they should. */
  ghost predicate IsMeaning(m: Meaning) {
    forall x: int :: (m(TYPE_I1, x) <==> IsBit(x)) && (m(TYPE_U32, x) <==> IsWord(x))
  }

  /** `v` may hold `x`. */
  predicate Allowed(dfg: Dfg, m: Meaning, v: Value, x: int) {
    v in dfg.types ==> m(dfg.types[v], x)
  }

  /** Every assigned value has its type. */
  ghost predicate TypedEnv(dfg: Dfg, m: Meaning, env: Env) {
    forall v {:trigger Allowed(dfg, m, v, env[v])} :: v in env ==> Allowed(dfg, m, v, env[v])
  }

  /** The numbers `xs` have the types of the values `vs`. */
  ghost predicate TypedList(dfg: Dfg, m: Meaning, vs: seq<Value>, xs: seq<int>) {
    |xs| == |vs| && forall k :: 0 <= k < |vs| ==> Allowed(dfg, m, vs[k], xs[k])
  }

  /** An ordinary instruction has produced results of their types. */
  ghost predicate ProducesTyped(dfg: Dfg, m: Meaning, c: Config, c': Config) {
    c.At? && c'.At? && dfg.HasInst(Inst(c.block, c.pos)) && dfg.InstAt(Inst(c.block, c.pos)).data.Op? ==>
      |c'.trace| > 0 && TypedList(dfg, m, dfg.InstAt(Inst(c.block, c.pos)).results, c'.trace[|c'.trace| - 1].results)
  }

  /** Called with typed arguments, and instructions keep to their types. */
  ghost predicate IsTypedRun(dfg: Dfg, m: Meaning, cs: seq<Config>) {
    && |cs| > 0
    && if |cs| == 1 then Init(dfg, cs[0]) && TypedEnv(dfg, m, cs[0].env)
       else var c, c' := cs[|cs| - 2], cs[|cs| - 1];
         Step(dfg, c, c') && ProducesTyped(dfg, m, c, c') && IsTypedRun(dfg, m, cs[..|cs| - 1])
  }

  /** A conditional branch decides on a bit, a switch on a 32-bit number. */
  ghost predicate DecidesWell(data: Instruction, env: Env) {
    match data
    case CondBr(cond, _, _) => cond in env && IsBit(env[cond])
    case Switch(arg, _, _) => arg in env && IsWord(env[arg])
    case _ => true
  }

  lemma {:induction false} BindTyped(dfg: Dfg, m: Meaning, env: Env, vs: seq<Value>, xs: seq<int>)
    requires TypedEnv(dfg, m, env) && TypedList(dfg, m, vs, xs)
    ensures TypedEnv(dfg, m, Bind(env, vs, xs))
    decreases |vs|
  {
    hide Allowed;
    if |vs| > 0 {
      assert Allowed(dfg, m, vs[0], xs[0]);
      forall k | 0 <= k < |vs[1..]| ensures Allowed(dfg, m, vs[1..][k], xs[1..][k]) {
        assert Allowed(dfg, m, vs[k + 1], xs[k + 1]);
      }
      BindTyped(dfg, m, env[vs[0] := xs[0]], vs[1..], xs[1..]);
    }
  }

  /** Arguments of the same types make parameters of their types. */
  lemma {:induction false} ArgsTyped(dfg: Dfg, m: Meaning, env: Env, t: JumpTable)
    requires ArgsOk(dfg, t) && TypedEnv(dfg, m, env) && AllIn(t.args, env)
    ensures TypedList(dfg, m, dfg.Params(t.dest), Read(env, t.args))
  {
    var ps := dfg.Params(t.dest);
    forall k | 0 <= k < |ps| ensures Allowed(dfg, m, ps[k], env[t.args[k]]) {
      assert dfg.TypeOf(t.args[k]) == dfg.TypeOf(ps[k]);
      assert Allowed(dfg, m, t.args[k], env[t.args[k]]);
    }
  }

  lemma StepTyped(dfg: Dfg, m: Meaning, c: Config, c': Config)
    requires Step(dfg, c, c') && c'.At? && TypesOk(dfg, c.block) && TypedEnv(dfg, m, c.env)
    requires ProducesTyped(dfg, m, c, c')
    ensures TypedEnv(dfg, m, c'.env)
  {
    hide TypedEnv, TypedList, OperandOk, ArgsOk;
    var node := dfg.InstAt(Inst(c.block, c.pos));
    if node.data.Op? {
      var xs :| OpStep(c, node, xs, c');
      assert c'.trace[|c'.trace| - 1].results == xs;
      BindTyped(dfg, m, c.env, node.results, xs);
    } else {
      var t := Chosen(node.data, c.env).value;
      ChosenIsTarget(node.data, c.env);
      assert InstTypesOk(dfg, node.data);
      ArgsTyped(dfg, m, c.env, t);
      BindTyped(dfg, m, c.env, dfg.Params(t.dest), Read(c.env, t.args));
    }
  }

  lemma {:induction false} RunTyped(dfg: Dfg, m: Meaning, cs: seq<Config>)
    requires Consistent(dfg) && ValidFunction(dfg) && IsTypedRun(dfg, m, cs) && cs[|cs| - 1].At?
    ensures IsRun(dfg, cs) && cs[|cs| - 1].block < dfg.NumBlocks() && TypedEnv(dfg, m, cs[|cs| - 1].env)
    decreases |cs|
  {
    hide TypedEnv, BlockOk, UsesOk, TypesOk, Step;
    var n := |cs|;
    if n > 1 {
      StayInRange(dfg, cs[n - 2], cs[n - 1]);
      RunTyped(dfg, m, cs[..n - 1]);
      assert BlockOk(dfg, cs[n - 2].block);
      StepTyped(dfg, m, cs[n - 2], cs[n - 1]);
    }
  }

  lemma StayInRange(dfg: Dfg, c: Config, c': Config)
    requires Step(dfg, c, c') && c'.At?
    ensures c.At? && (c.block < dfg.NumBlocks() ==> c'.block < dfg.NumBlocks())
  {
  }

  /** Type safety: in every run of an accepted function that is called with typed arguments, whose
      instructions keep to their types, every value has its type, and branches decide on numbers they
      can handle. */
  lemma {:induction false} ValidRunsAreTyped(dfg: Dfg, m: Meaning, cs: seq<Config>)
    requires IsMeaning(m) && Consistent(dfg) && ValidFunction(dfg)
    requires IsTypedRun(dfg, m, cs) && cs[|cs| - 1].At?
    ensures var c := cs[|cs| - 1]; var i := Inst(c.block, c.pos);
            TypedEnv(dfg, m, c.env) && dfg.HasInst(i) && DecidesWell(dfg.InstAt(i).data, c.env)
  {
    var c := cs[|cs| - 1];
    var i := Inst(c.block, c.pos);
    RunTyped(dfg, m, cs);
    assert Reaches(dfg, c);
    ValidRunsAreSafe(dfg, c);
    assert BlockOk(dfg, c.block);
    assert InstTypesOk(dfg, dfg.InstAt(i).data);
    OperandDecides(dfg, m, i, c.env);
  }

  lemma OperandDecides(dfg: Dfg, m: Meaning, i: Inst, env: Env)
    requires IsMeaning(m) && TypedEnv(dfg, m, env) && dfg.HasInst(i) && OperandOk(dfg, dfg.InstAt(i).data)
    requires forall v: Value {:trigger UsedBy(dfg, i, v)} :: UsedBy(dfg, i, v) ==> v in env
    ensures DecidesWell(dfg.InstAt(i).data, env)
  {
    hide IsBit, IsWord;
    match dfg.InstAt(i).data {
      case CondBr(cond, _, _) =>
        assert UsedBy(dfg, i, cond) && Allowed(dfg, m, cond, env[cond]);
      case Switch(arg, _, _) =>
        assert UsedBy(dfg, i, arg) && Allowed(dfg, m, arg, env[arg]);
      case _ =>
    }
  }

  // The rules are no stricter than that

  /** A meaning in which every number has the type `t`, unless `t` is one of the two fixed types, and none
      has any further type. */
  function Spread(t: TypeId): Meaning {
    (s, x) => if s == TYPE_I1 then IsBit(x) else if s == TYPE_U32 then IsWord(x) else s == t
  }

  /** Two values have the same type exactly if they may hold the same numbers, whatever types mean. */
  lemma SameTypeIff(dfg: Dfg, a: Value, b: Value)
    requires a in dfg.types && b in dfg.types
    ensures dfg.TypeOf(a) == dfg.TypeOf(b) <==>
            forall m, x :: IsMeaning(m) ==> (Allowed(dfg, m, a, x) <==> Allowed(dfg, m, b, x))
  {
    var s, t := dfg.types[a], dfg.types[b];
    if s != t {
      var m := Spread(if s == TYPE_I1 || s == TYPE_U32 then t else s);
      var x := if s <= 1 && t <= 1 then 2 else -1;
      assert IsMeaning(m) && Allowed(dfg, m, a, x) != Allowed(dfg, m, b, x);
    }
  }

  /** What a branch passes is accepted exactly if there is an argument for each parameter, which may hold the same
      numbers, whatever types mean. */
  lemma ArgsRuleIff(dfg: Dfg, t: JumpTable)
    requires forall k :: 0 <= k < |t.args| ==> t.args[k] in dfg.types
    requires forall k :: 0 <= k < |dfg.Params(t.dest)| ==> dfg.Params(t.dest)[k] in dfg.types
    ensures var ps := dfg.Params(t.dest);
            ArgsOk(dfg, t) <==>
            |t.args| == |ps| && forall k: nat, m, x :: k < |ps| && IsMeaning(m) ==>
                (Allowed(dfg, m, t.args[k], x) <==> Allowed(dfg, m, ps[k], x))
  {
    hide Allowed, IsMeaning;
    if |t.args| == |dfg.Params(t.dest)| {
      forall k | 0 <= k < |t.args|
        ensures dfg.TypeOf(t.args[k]) == dfg.TypeOf(dfg.Params(t.dest)[k]) <==> forall m, x :: IsMeaning(m) ==>
                  (Allowed(dfg, m, t.args[k], x) <==> Allowed(dfg, m, dfg.Params(t.dest)[k], x))
      {
        SameTypeIff(dfg, t.args[k], dfg.Params(t.dest)[k]);
      }
    }
  }

  /** The numbers a branch can decide between. */
  predicate Decides(data: Instruction, x: int) {
    if data.CondBr? then IsBit(x) else IsWord(x)
  }

  /** The operand of a branch is accepted exactly if, whatever types mean, it may hold the numbers the branch
      decides between, and no others. */
  lemma OperandRuleIff(dfg: Dfg, data: Instruction)
    requires data.CondBr? || data.Switch?
    ensures OperandOk(dfg, data) <==>
            forall m, x :: IsMeaning(m) ==> (Allowed(dfg, m, data.Arguments()[0], x) <==> Decides(data, x))
  {
    var v := data.Arguments()[0];
    if !OperandOk(dfg, data) {
      var m := Spread(if v in dfg.types then dfg.types[v] else 2);
      var x := if v in dfg.types && dfg.types[v] <= 1 then 2 else -1;
      assert IsMeaning(m) && Allowed(dfg, m, v, x) != Decides(data, x);
    }
  }

  // Keys of a switch

  lemma {:induction false} KeyedArm(arms: seq<(nat, Block)>, fallback: Block, k: nat)
    requires DistinctKeys(arms) && k < |arms|
    ensures SelectArm(arms[k].0, arms, fallback) == arms[k].1
    decreases |arms|
  {
    if k > 0 {
      assert arms[0].0 != arms[k].0;
      KeyedArm(arms[1..], fallback, k - 1);
    }
  }

  lemma {:induction false} NoArm(x: int, arms: seq<(nat, Block)>, fallback: Block)
    requires forall k :: 0 <= k < |arms| ==> arms[k].0 != x
    ensures SelectArm(x, arms, fallback) == fallback
    decreases |arms|
  {
    if |arms| > 0 {
      NoArm(x, arms[1..], fallback);
    }
  }

  /** Every arm of an accepted switch is taken for its key, and the fallback for every other number. */
  lemma ValidSwitchTakesArm(dfg: Dfg, i: Inst, env: Env, k: nat)
    requires ValidFunction(dfg) && dfg.HasInst(i) && dfg.InstAt(i).data.Switch?
    requires dfg.InstAt(i).data.arg in env
    ensures var data := dfg.InstAt(i).data; var x := env[data.arg];
            && (k < |data.arms| && data.arms[k].0 == x ==> Chosen(data, env) == Some(JumpTable(data.arms[k].1, [])))
            && ((forall j :: 0 <= j < |data.arms| ==> data.arms[j].0 != x) ==>
                  Chosen(data, env) == Some(JumpTable(data.fallback, [])))
  {
    var data := dfg.InstAt(i).data;
    assert BlockOk(dfg, i.block);
    assert InstTypesOk(dfg, dfg.Insts(i.block)[i.pos].data);
    if k < |data.arms| {
      KeyedArm(data.arms, data.fallback, k);
    }
    if forall j :: 0 <= j < |data.arms| ==> data.arms[j].0 != env[data.arg] {
      NoArm(env[data.arg], data.arms, data.fallback);
    }
  }

  /** Where the arms go to different blocks, the keys must differ for that. */
  lemma KeyRuleIff(arms: seq<(nat, Block)>, fallback: Block)
    requires forall i, j :: 0 <= i < j < |arms| ==> arms[i].1 != arms[j].1
    ensures DistinctKeys(arms) <==> forall k :: 0 <= k < |arms| ==> SelectArm(arms[k].0, arms, fallback) == arms[k].1
  {
    if DistinctKeys(arms) {
      forall k | 0 <= k < |arms| ensures SelectArm(arms[k].0, arms, fallback) == arms[k].1 {
        KeyedArm(arms, fallback, k);
      }
    }
  }
}
