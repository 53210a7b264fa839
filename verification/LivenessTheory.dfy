/** Distances to the next use of a value: what one backward scan of a block computes, what a recorded
    distance means, and why repeated scans settle. */
module LivenessTheory {
  import opened IR
  import opened Loops
  import opened Validation

  /** Distances are 32 bits wide; the largest one stands for "no use known". */
  const INFINITE: nat := 0xFFFF_FFFF

  /** What an edge that leaves a loop costs. */
  const LOOP_EXIT_DISTANCE: nat := 100_000

  type Distance = d: nat | d <= INFINITE

  type NextUseSet = map<Value, Distance>

  type Table = map<ProgramPoint, NextUseSet>

  function SatAdd(d: Distance, k: nat): Distance {
    if d + k > INFINITE then INFINITE else d + k
  }

  predicate IsLive(s: NextUseSet, v: Value) {
    v in s && s[v] < INFINITE
  }

  /** `s` with `v` at no more than `d`. */
  function Insert(s: NextUseSet, v: Value, d: Distance): NextUseSet {
    s[v := if v in s && s[v] < d then s[v] else d]
  }

  /** All distances increased. */
  function Plus(s: NextUseSet, k: nat): NextUseSet {
    map v | v in s :: SatAdd(s[v], k)
  }

  function Minus(s: NextUseSet, vs: seq<Value>): NextUseSet {
    map v | v in s && v !in vs :: s[v]
  }

  /** The values `vs` are known, at an infinite distance unless a use has been seen. */
  function Defaults(s: NextUseSet, vs: seq<Value>): NextUseSet {
    map v | v in s.Keys + (set x | x in vs) :: if v in s then s[v] else INFINITE
  }

  /** The values `us` are used here. */
  function Used(s: NextUseSet, us: set<Value>): NextUseSet {
    map v | v in s.Keys + us :: if v in us then 0 else s[v]
  }

  function Join(a: NextUseSet, b: NextUseSet): NextUseSet {
    map v | v in a.Keys + b.Keys ::
      if v !in a then b[v] else if v !in b then a[v] else if a[v] <= b[v] then a[v] else b[v]
  }

  /** The set after the first `k` arguments have been passed in turn: an argument is used if the parameter
      that takes it is live by then. */
  function Passed(s: NextUseSet, args: seq<Value>, params: seq<Value>, k: nat): NextUseSet
    requires k <= |args| && k <= |params|
  {
    if k == 0 then s
    else
      var r := Passed(s, args, params, k - 1);
      if IsLive(r, params[k - 1]) then Insert(r, args[k - 1], 0) else r
  }

  function Shorter(a: nat, b: nat): nat {
    if a < b then a else b
  }

  function Header(L: Table, b: Block): NextUseSet {
    if AtBlock(b) in L then L[AtBlock(b)] else map[]
  }

  // What a scan computes

  /** A function and the loops found in it. */
  datatype Context = Context(dfg: Dfg, loops: seq<LoopData>, tags: LoopMap) {

    function InnermostLoop(b: Block): Option<nat> {
      if b < |tags| then tags[b] else None
    }

    /** The edge leaves the loop of `b`: for no loop at all, or for a loop around it. */
    predicate LoopExit(b: Block, s: Block) {
      InnermostLoop(b).Some? &&
      (InnermostLoop(s).None? ||
       (InnermostLoop(b) != InnermostLoop(s) && Under(loops, InnermostLoop(b).value, InnermostLoop(s).value)))
    }

    function EdgeWeight(b: Block, s: Block): nat {
      if LoopExit(b, s) then LOOP_EXIT_DISTANCE else 0
    }

    function Results(b: Block, k: nat): seq<Value> {
      if k < |dfg.Insts(b)| then dfg.Insts(b)[k].results else []
    }

    predicate Falls(b: Block, k: nat) {
      k < |dfg.Insts(b)| && dfg.Insts(b)[k].data.AnalyzeBranch().NotABranch?
    }

    /** What is live over one edge. */
    function EdgeSet(L: Table, b: Block, t: JumpTable): NextUseSet {
      Plus(Minus(Header(L, t.dest), dfg.Params(t.dest)), EdgeWeight(b, t.dest))
    }

    function JoinEdges(L: Table, b: Block, ts: seq<JumpTable>): NextUseSet {
      if |ts| == 0 then map[] else Join(JoinEdges(L, b, ts[..|ts| - 1]), EdgeSet(L, b, ts[|ts| - 1]))
    }

    /** The same as seen by the branch, which uses the arguments of live parameters. */
    function EdgeUses(L: Table, b: Block, t: JumpTable): NextUseSet {
      var params := dfg.Params(t.dest);
      Plus(Minus(Passed(Header(L, t.dest), t.args, params, Shorter(|t.args|, |params|)), params), EdgeWeight(b, t.dest))
    }

    function JoinUses(L: Table, b: Block, ts: seq<JumpTable>): NextUseSet {
      if |ts| == 0 then map[] else Join(JoinUses(L, b, ts[..|ts| - 1]), EdgeUses(L, b, ts[|ts| - 1]))
    }

    /** What is live after instruction `k`, seen from it. */
    function After(L: Table, b: Block, k: nat): NextUseSet
      requires k < |dfg.Insts(b)|
      decreases |dfg.Insts(b)| - k, 0
    {
      if !Falls(b, k) then JoinEdges(L, b, dfg.Insts(b)[k].data.Targets())
      else if k + 1 < |dfg.Insts(b)| then Plus(At(L, b, k + 1), 1)
      else map[]
    }

    /** What is live at instruction `k`. */
    function At(L: Table, b: Block, k: nat): NextUseSet
      requires k < |dfg.Insts(b)|
      decreases |dfg.Insts(b)| - k, 1
    {
      var later := if Falls(b, k) then Minus(After(L, b, k), Results(b, k + 1)) else After(L, b, k);
      Used(Defaults(later, Results(b, k)), UsesOf(dfg.Insts(b)[k].data))
    }

    /** What is recorded as live after instruction `k`. */
    function Out(L: Table, b: Block, k: nat): NextUseSet
      requires k < |dfg.Insts(b)|
    {
      Defaults(After(L, b, k), Results(b, k))
    }

    /** What is live at the head of the block. */
    function HeaderSet(L: Table, b: Block): NextUseSet
      requires |dfg.Insts(b)| > 0
    {
      Defaults(Minus(At(L, b, 0), Results(b, 0)), dfg.Params(b))
    }

    // What a distance means

    /** Control may pass from `x` to `y`. */
    predicate Steps(x: ProgramPoint, y: ProgramPoint) {
      match x
      case AtBlock(b) => y == AtInst(Inst(b, 0)) && dfg.HasInst(Inst(b, 0))
      case AtInst(i) =>
        if Falls(i.block, i.pos) then y == AtInst(Inst(i.block, i.pos + 1)) && dfg.HasInst(y.inst)
        else dfg.HasInst(i) && y.AtBlock? && exists t :: t in dfg.InstAt(i).data.Targets() && t.dest == y.block
    }

    /** One per instruction; an edge costs nothing unless it leaves a loop. */
    function StepWeight(x: ProgramPoint, y: ProgramPoint): nat {
      if x.AtInst? && y.AtBlock? then EdgeWeight(x.inst.block, y.block)
      else if x.AtInst? then 1
      else 0
    }

    predicate DefinedAt(x: ProgramPoint, v: Value) {
      match x
      case AtBlock(b) => v in dfg.Params(b)
      case AtInst(i) => v in Results(i.block, i.pos)
    }

    ghost predicate UsedAt(x: ProgramPoint, v: Value) {
      x.AtInst? && UsedBy(dfg, x.inst, v)
    }

    /** A path to a use of `v` on which `v` is not defined again. */
    ghost predicate UsePath(q: seq<ProgramPoint>, v: Value)
      decreases |q|
    {
      && |q| > 0
      && if |q| == 1 then UsedAt(q[0], v)
         else Steps(q[0], q[1]) && !DefinedAt(q[1], v) && UsePath(q[1..], v)
    }

    function Weight(q: seq<ProgramPoint>): nat
      decreases |q|
    {
      if |q| <= 1 then 0 else StepWeight(q[0], q[1]) + Weight(q[1..])
    }

    ghost predicate PathOf(x: ProgramPoint, v: Value, d: nat, q: seq<ProgramPoint>) {
      UsePath(q, v) && q[0] == x && Weight(q) == d
    }

    ghost predicate HasPath(x: ProgramPoint, v: Value, d: nat) {
      exists q :: PathOf(x, v, d, q)
    }

    /** Every finite distance is the weight of a path to a use. */
    ghost predicate Sound(x: ProgramPoint, s: NextUseSet) {
      forall v :: v in s && s[v] < INFINITE ==> HasPath(x, v, s[v])
    }

    /** After `x`: a path starting with one of the next points; if that is an instruction, it may define the
        value. */
    ghost predicate HasPathAfter(x: ProgramPoint, v: Value, d: nat) {
      exists y: ProgramPoint, e: nat {:trigger HasPath(y, v, e)} ::
        Steps(x, y) && (y.AtBlock? ==> !DefinedAt(y, v)) && StepWeight(x, y) + e == d && HasPath(y, v, e)
    }

    ghost predicate SoundAfter(x: ProgramPoint, s: NextUseSet) {
      forall v :: v in s && s[v] < INFINITE ==> HasPathAfter(x, v, s[v])
    }

    ghost predicate HeadersSound(L: Table) {
      forall b: Block {:trigger Header(L, b)} :: Sound(AtBlock(b), Header(L, b))
    }

    lemma PathHere(x: ProgramPoint, v: Value)
      requires UsedAt(x, v)
      ensures HasPath(x, v, 0)
    {
      assert PathOf(x, v, 0, [x]);
    }

    lemma PathOn(x: ProgramPoint, y: ProgramPoint, v: Value, d: nat)
      requires Steps(x, y) && !DefinedAt(y, v) && HasPath(y, v, d)
      ensures HasPath(x, v, StepWeight(x, y) + d)
    {
      var q :| PathOf(y, v, d, q);
      assert ([x] + q)[1..] == q;
      assert PathOf(x, v, StepWeight(x, y) + d, [x] + q);
    }

    lemma EdgeSound(L: Table, b: Block, k: nat, t: JumpTable, v: Value)
      requires HeadersSound(L) && dfg.HasInst(Inst(b, k)) && t in dfg.Insts(b)[k].data.Targets()
      requires v in EdgeSet(L, b, t) && EdgeSet(L, b, t)[v] < INFINITE
      ensures HasPath(AtInst(Inst(b, k)), v, EdgeSet(L, b, t)[v])
      ensures HasPathAfter(AtInst(Inst(b, k)), v, EdgeSet(L, b, t)[v])
    {
      hide HasPath, Under, UsePath;
      assert !Falls(b, k);
      assert Sound(AtBlock(t.dest), Header(L, t.dest));
      PathOn(AtInst(Inst(b, k)), AtBlock(t.dest), v, Header(L, t.dest)[v]);
    }

    lemma {:induction false} EdgesSound(L: Table, b: Block, k: nat, ts: seq<JumpTable>, v: Value)
      requires HeadersSound(L) && dfg.HasInst(Inst(b, k)) && forall t :: t in ts ==> t in dfg.Insts(b)[k].data.Targets()
      requires v in JoinEdges(L, b, ts) && JoinEdges(L, b, ts)[v] < INFINITE
      ensures HasPath(AtInst(Inst(b, k)), v, JoinEdges(L, b, ts)[v])
      ensures HasPathAfter(AtInst(Inst(b, k)), v, JoinEdges(L, b, ts)[v])
      decreases |ts|
    {
      hide HasPath, HasPathAfter, EdgeSet, HeadersSound;
      if |ts| > 0 {
        var e := EdgeSet(L, b, ts[|ts| - 1]);
        var rest := JoinEdges(L, b, ts[..|ts| - 1]);
        assert forall t :: t in ts[..|ts| - 1] ==> t in ts;
        if v in e && JoinEdges(L, b, ts)[v] == e[v] {
          EdgeSound(L, b, k, ts[|ts| - 1], v);
        } else {
          EdgesSound(L, b, k, ts[..|ts| - 1], v);
        }
      }
    }

    /** What the scan records is sound when the headers it reads are. */
    lemma {:induction false} ScanSound(L: Table, b: Block, k: nat)
      requires HeadersSound(L) && k < |dfg.Insts(b)|
      ensures Sound(AtInst(Inst(b, k)), At(L, b, k))
      ensures SoundAfter(AtInst(Inst(b, k)), Out(L, b, k))
      decreases |dfg.Insts(b)| - k
    {
      hide HasPath, HeadersSound, Header;
      var x := AtInst(Inst(b, k));
      if Falls(b, k) && k + 1 < |dfg.Insts(b)| {
        ScanSound(L, b, k + 1);
      }
      forall v | v in Out(L, b, k) && Out(L, b, k)[v] < INFINITE ensures HasPathAfter(x, v, Out(L, b, k)[v]) {
        AfterSound(L, b, k, v);
      }
      forall v | v in At(L, b, k) && At(L, b, k)[v] < INFINITE ensures HasPath(x, v, At(L, b, k)[v]) {
        if v in UsesOf(dfg.Insts(b)[k].data) {
          PathHere(x, v);
        } else {
          AfterSound(L, b, k, v);
        }
      }
    }

    /** A value live at the next instruction is live after this one, one step further away. */
    lemma FallSound(L: Table, b: Block, k: nat, v: Value)
      requires k + 1 < |dfg.Insts(b)| && Falls(b, k) && Sound(AtInst(Inst(b, k + 1)), At(L, b, k + 1))
      requires v in At(L, b, k + 1) && At(L, b, k + 1)[v] < INFINITE
      ensures HasPathAfter(AtInst(Inst(b, k)), v, At(L, b, k + 1)[v] + 1)
      ensures v !in Results(b, k + 1) ==> HasPath(AtInst(Inst(b, k)), v, At(L, b, k + 1)[v] + 1)
    {
      hide HasPath, At;
      var x, y := AtInst(Inst(b, k)), AtInst(Inst(b, k + 1));
      var d := At(L, b, k + 1)[v];
      assert Steps(x, y) && StepWeight(x, y) == 1 && HasPath(y, v, d);
      if v !in Results(b, k + 1) {
        PathOn(x, y, v, d);
      }
    }

    lemma AfterSound(L: Table, b: Block, k: nat, v: Value)
      requires HeadersSound(L) && k < |dfg.Insts(b)| && v in After(L, b, k) && After(L, b, k)[v] < INFINITE
      requires Falls(b, k) && k + 1 < |dfg.Insts(b)| ==> Sound(AtInst(Inst(b, k + 1)), At(L, b, k + 1))
      ensures HasPathAfter(AtInst(Inst(b, k)), v, After(L, b, k)[v])
      ensures !Falls(b, k) || v !in Results(b, k + 1) ==> HasPath(AtInst(Inst(b, k)), v, After(L, b, k)[v])
    {
      hide HasPath, HasPathAfter, Sound, HeadersSound, At, JoinEdges, Results;
      if Falls(b, k) {
        FallSound(L, b, k, v);
      } else {
        EdgesSound(L, b, k, dfg.Insts(b)[k].data.Targets(), v);
      }
    }

    lemma HeaderSound(L: Table, b: Block)
      requires HeadersSound(L) && |dfg.Insts(b)| > 0
      ensures Sound(AtBlock(b), HeaderSet(L, b))
    {
      hide HasPath, HeadersSound, Header, At;
      ScanSound(L, b, 0);
      forall v | v in HeaderSet(L, b) && HeaderSet(L, b)[v] < INFINITE
        ensures HasPath(AtBlock(b), v, HeaderSet(L, b)[v])
      {
        PathOn(AtBlock(b), AtInst(Inst(b, 0)), v, At(L, b, 0)[v]);
      }
    }

    // Later scans improve

    lemma {:induction false} EdgesMonotone(L: Table, L': Table, b: Block, ts: seq<JumpTable>)
      requires HeadersImprove(L, L')
      ensures Improves(JoinEdges(L, b, ts), JoinEdges(L', b, ts))
      decreases |ts|
    {
      hide EdgeWeight, Header, Join, Plus, Minus, Improves;
      if |ts| > 0 {
        var t := ts[|ts| - 1];
        EdgesMonotone(L, L', b, ts[..|ts| - 1]);
        var h, h', ps := Header(L, t.dest), Header(L', t.dest), dfg.Params(t.dest);
        assert Improves(h, h');
        MinusImproves(h, h', ps);
        PlusImproves(Minus(h, ps), Minus(h', ps), EdgeWeight(b, t.dest));
        JoinImproves(JoinEdges(L, b, ts[..|ts| - 1]), JoinEdges(L', b, ts[..|ts| - 1]),
                     EdgeSet(L, b, t), EdgeSet(L', b, t));
      } else {
        ImprovesRefl(map[]);
      }
    }

    lemma {:induction false} ScanMonotone(L: Table, L': Table, b: Block, k: nat)
      requires HeadersImprove(L, L') && k < |dfg.Insts(b)|
      ensures Improves(At(L, b, k), At(L', b, k))
      decreases |dfg.Insts(b)| - k
    {
      hide HeadersImprove, JoinEdges, Improves, Plus, Minus, Defaults, Used, Results, UsesOf;
      var insts := dfg.Insts(b);
      if !Falls(b, k) {
        EdgesMonotone(L, L', b, insts[k].data.Targets());
      } else if k + 1 < |insts| {
        ScanMonotone(L, L', b, k + 1);
        PlusImproves(At(L, b, k + 1), At(L', b, k + 1), 1);
      } else {
        ImprovesRefl(map[]);
      }
      var a, a' := After(L, b, k), After(L', b, k);
      MinusImproves(a, a', Results(b, k + 1));
      var later := if Falls(b, k) then Minus(a, Results(b, k + 1)) else a;
      var later' := if Falls(b, k) then Minus(a', Results(b, k + 1)) else a';
      DefaultsImproves(later, later', Results(b, k));
      UsedImproves(Defaults(later, Results(b, k)), Defaults(later', Results(b, k)), UsesOf(insts[k].data));
    }

    /** Better headers in the successors give a better header. */
    lemma HeaderMonotone(L: Table, L': Table, b: Block)
      requires HeadersImprove(L, L') && |dfg.Insts(b)| > 0
      ensures Improves(HeaderSet(L, b), HeaderSet(L', b))
    {
      hide HeadersImprove, At;
      ScanMonotone(L, L', b, 0);
    }

    lemma {:induction false} EdgesSame(L: Table, L': Table, b: Block, ts: seq<JumpTable>)
      requires SameHeaders(L, L')
      ensures JoinEdges(L, b, ts) == JoinEdges(L', b, ts)
      decreases |ts|
    {
      hide Header;
      if |ts| > 0 {
        EdgesSame(L, L', b, ts[..|ts| - 1]);
        assert Header(L, ts[|ts| - 1].dest) == Header(L', ts[|ts| - 1].dest);
      }
    }

    lemma {:induction false} EdgesBelow(L: Table, b: Block, ts: seq<JumpTable>, m: nat)
      requires HeadersBelow(L, m)
      ensures Below(JoinEdges(L, b, ts), m)
      decreases |ts|
    {
      hide EdgeWeight, Header;
      if |ts| > 0 {
        EdgesBelow(L, b, ts[..|ts| - 1], m);
        assert Below(Header(L, ts[|ts| - 1].dest), m);
      }
    }

    /** A scan only brings in values the function mentions. */
    lemma {:induction false} ScanBelow(L: Table, b: Block, k: nat, m: nat)
      requires HeadersBelow(L, m) && k < |dfg.Insts(b)| && ValuesBelow(dfg, m)
      ensures Below(At(L, b, k), m)
      decreases |dfg.Insts(b)| - k
    {
      hide HeadersBelow, JoinEdges, UsesOf;
      if !Falls(b, k) {
        EdgesBelow(L, b, dfg.Insts(b)[k].data.Targets(), m);
      } else if k + 1 < |dfg.Insts(b)| {
        ScanBelow(L, b, k + 1, m);
      }
      assert Mentions(dfg.Insts(b)[k], m);
    }

    lemma HeaderBelow(L: Table, b: Block, m: nat)
      requires HeadersBelow(L, m) && |dfg.Insts(b)| > 0 && ValuesBelow(dfg, m)
      ensures Below(HeaderSet(L, b), m)
    {
      hide HeadersBelow, At;
      ScanBelow(L, b, 0, m);
    }

    // What cannot be missed

    /** The path takes no edge to a block that comes later in the post-order. */
    ghost predicate Forward(post: seq<Block>, q: seq<ProgramPoint>)
      decreases |q|
    {
      |q| <= 1 || (ForwardStep(post, q[0], q[1]) && Forward(post, q[1..]))
    }

    ghost predicate ForwardStep(post: seq<Block>, x: ProgramPoint, y: ProgramPoint) {
      x.AtInst? && y.AtBlock? ==> Earlier(post, y.block, x.inst.block)
    }

    predicate Within(s: NextUseSet, v: Value, w: nat) {
      v in s && s[v] <= w
    }

    ghost predicate ForwardUse(post: seq<Block>, x: ProgramPoint, v: Value, q: seq<ProgramPoint>) {
      UsePath(q, v) && q[0] == x && Forward(post, q)
    }

    ghost predicate HasForwardUse(post: seq<Block>, x: ProgramPoint) {
      exists v, q :: ForwardUse(post, x, v, q)
    }

    /** A block of the post-order branches to `b`, which does not come earlier than itself. */
    ghost predicate RetreatTarget(post: seq<Block>, b: Block) {
      exists u: Block, k: nat, t {:trigger BranchesFrom(dfg, u, k, t)} ::
        u in post && BranchesFrom(dfg, u, k, t) && t.dest == b && !Earlier(post, b, u)
    }

    /** The block is visited again after all blocks have been visited: no edge retreats to it, or it has
        parameters, or a use lies ahead of its head on a forward path. */
    ghost predicate Revisited(post: seq<Block>, b: Block) {
      !RetreatTarget(post, b) || |dfg.Params(b)| > 0 || HasForwardUse(post, AtBlock(b))
    }

    /** At most one edge of the path retreats, and the blocks entered before that are visited again. */
    ghost predicate RetreatsOnce(post: seq<Block>, q: seq<ProgramPoint>)
      decreases |q|
    {
      || Forward(post, q)
      || (|q| > 1 && if ForwardStep(post, q[0], q[1])
                     then (q[1].AtBlock? ==> Revisited(post, q[1].block)) && RetreatsOnce(post, q[1..])
                     else q[1].block in post && Forward(post, q[1..]))
    }

    /** A path that is forward or, if `back`, retreats once. */
    ghost predicate Followed(post: seq<Block>, q: seq<ProgramPoint>, back: bool) {
      if back then RetreatsOnce(post, q) else Forward(post, q)
    }

    ghost predicate UseAhead(post: seq<Block>, x: ProgramPoint, v: Value, q: seq<ProgramPoint>, back: bool) {
      UsePath(q, v) && q[0] == x && Followed(post, q, back)
    }

    /** A use that lies beyond `x`: the next instruction may define the value, but a block that is entered must not
        have it as a parameter. */
    ghost predicate UseBeyond(post: seq<Block>, x: ProgramPoint, v: Value, q: seq<ProgramPoint>, back: bool) {
      && |q| > 1 && q[0] == x && Steps(x, q[1]) && UsePath(q[1..], v)
      && (q[1].AtBlock? ==> !DefinedAt(q[1], v)) && Followed(post, q, back)
    }

    /** Every use that lies ahead on such a path is known, at no more than its distance. */
    ghost predicate Complete(post: seq<Block>, x: ProgramPoint, s: NextUseSet, back: bool) {
      forall v: Value, q {:trigger UseAhead(post, x, v, q, back)} ::
        UseAhead(post, x, v, q, back) ==> Within(s, v, Weight(q))
    }

    ghost predicate CompleteAfter(post: seq<Block>, x: ProgramPoint, s: NextUseSet, back: bool) {
      forall v: Value, q {:trigger UseBeyond(post, x, v, q, back)} ::
        UseBeyond(post, x, v, q, back) ==> Within(s, v, Weight(q))
    }

    ghost predicate HeaderKnows(post: seq<Block>, L: Table, s: Block, back: bool) {
      Complete(post, AtBlock(s), Header(L, s), back)
    }

    /** The headers that `b` reads are complete: along forward edges as far as `back` asks, along retreating edges
        for what lies ahead on forward paths. */
    ghost predicate TargetsComplete(post: seq<Block>, L: Table, b: Block, back: bool) {
      && (forall s: Block {:trigger Earlier(post, s, b)} :: Earlier(post, s, b) ==>
            HeaderKnows(post, L, s, false) && (back && Revisited(post, s) ==> HeaderKnows(post, L, s, true)))
      && (back ==> forall s: Block {:trigger HeaderKnows(post, L, s, false)} ::
            s in post ==> HeaderKnows(post, L, s, false))
    }

    lemma {:induction false} EdgesWithin(L: Table, b: Block, ts: seq<JumpTable>, t: JumpTable, v: Value, w: nat)
      requires t in ts && Within(EdgeSet(L, b, t), v, w)
      ensures Within(JoinEdges(L, b, ts), v, w)
      decreases |ts|
    {
      hide EdgeSet;
      if t != ts[|ts| - 1] {
        assert ts == ts[..|ts| - 1] + [ts[|ts| - 1]];
        EdgesWithin(L, b, ts[..|ts| - 1], t, v, w);
      }
    }

    /** The rest of a path, after a step inside a block. */
    lemma TailInside(post: seq<Block>, x: ProgramPoint, v: Value, q: seq<ProgramPoint>, back: bool)
      requires UseBeyond(post, x, v, q, back) && q[1].AtInst?
      ensures UseAhead(post, q[1], v, q[1..], back) && Weight(q) == StepWeight(x, q[1]) + Weight(q[1..])
    {
    }

    /** The rest of a path, after an edge: what the header of the block entered must know. */
    lemma TailOverEdge(post: seq<Block>, L: Table, b: Block, k: nat, v: Value, q: seq<ProgramPoint>, back: bool)
      requires TargetsComplete(post, L, b, back) && UseBeyond(post, AtInst(Inst(b, k)), v, q, back) && q[1].AtBlock?
      ensures Within(Header(L, q[1].block), v, Weight(q[1..])) && v !in dfg.Params(q[1].block)
      ensures Weight(q) == EdgeWeight(b, q[1].block) + Weight(q[1..])
    {
      hide UsePath, Header, Earlier, EdgeWeight, Revisited, Steps, Within, Complete;
      var s := q[1].block;
      if ForwardStep(post, q[0], q[1]) {
        if Forward(post, q[1..]) {
          KnownWithin(post, L, s, v, q[1..], false);
        } else {
          KnownWithin(post, L, s, v, q[1..], true);
        }
      } else {
        assert HeaderKnows(post, L, s, false);
        KnownWithin(post, L, s, v, q[1..], false);
      }
    }

    lemma KnownWithin(post: seq<Block>, L: Table, s: Block, v: Value, q: seq<ProgramPoint>, back: bool)
      requires HeaderKnows(post, L, s, back) && UseAhead(post, AtBlock(s), v, q, back)
      ensures Within(Header(L, s), v, Weight(q))
    {
      hide UseAhead, Header;
    }

    /** A scan misses no use on such a path, neither at an instruction nor after it. */
    lemma {:induction false} ScanComplete(post: seq<Block>, L: Table, b: Block, k: nat, back: bool)
      requires TargetsComplete(post, L, b, back) && k < |dfg.Insts(b)|
      ensures Complete(post, AtInst(Inst(b, k)), At(L, b, k), back)
      ensures CompleteAfter(post, AtInst(Inst(b, k)), Out(L, b, k), back)
      decreases |dfg.Insts(b)| - k
    {
      hide UseAhead, UseBeyond, TargetsComplete, At, After, Out;
      var x := AtInst(Inst(b, k));
      if Falls(b, k) && k + 1 < |dfg.Insts(b)| {
        ScanComplete(post, L, b, k + 1, back);
      }
      forall v: Value, q | UseBeyond(post, x, v, q, back) ensures Within(Out(L, b, k), v, Weight(q)) {
        AfterWithin(post, L, b, k, v, q, back);
        OutWithin(L, b, k, v, Weight(q));
      }
      forall v: Value, q | UseAhead(post, x, v, q, back) ensures Within(At(L, b, k), v, Weight(q)) {
        if |q| > 1 {
          AheadIsBeyond(post, x, v, q, back);
          AfterWithin(post, L, b, k, v, q, back);
          AtWithin(L, b, k, v, q[1], Weight(q));
        } else {
          UseHere(post, L, b, k, v, q, back);
        }
      }
    }

    /** What an instruction or the head of a block defines is recorded there, used or not. */
    lemma DefsRecorded(L: Table, b: Block, k: nat)
      requires k < |dfg.Insts(b)|
      ensures forall v :: v in Results(b, k) ==> v in At(L, b, k) && v in Out(L, b, k)
      ensures forall v :: v in dfg.Params(b) ==> v in HeaderSet(L, b)
    {
      hide After;
    }

    lemma OutWithin(L: Table, b: Block, k: nat, v: Value, w: nat)
      requires k < |dfg.Insts(b)| && Within(After(L, b, k), v, w)
      ensures Within(Out(L, b, k), v, w)
    {
      hide After;
    }

    lemma AtWithin(L: Table, b: Block, k: nat, v: Value, y: ProgramPoint, w: nat)
      requires k < |dfg.Insts(b)| && Within(After(L, b, k), v, w) && Steps(AtInst(Inst(b, k)), y) && !DefinedAt(y, v)
      ensures Within(At(L, b, k), v, w)
    {
      hide After, UsesOf;
    }

    lemma AheadIsBeyond(post: seq<Block>, x: ProgramPoint, v: Value, q: seq<ProgramPoint>, back: bool)
      requires UseAhead(post, x, v, q, back) && |q| > 1
      ensures UseBeyond(post, x, v, q, back) && Steps(x, q[1]) && !DefinedAt(q[1], v)
    {
      hide Followed;
    }

    lemma UseHere(post: seq<Block>, L: Table, b: Block, k: nat, v: Value, q: seq<ProgramPoint>, back: bool)
      requires UseAhead(post, AtInst(Inst(b, k)), v, q, back) && |q| <= 1 && k < |dfg.Insts(b)|
      ensures Within(At(L, b, k), v, Weight(q))
    {
      hide After, Followed;
      assert v in UsesOf(dfg.Insts(b)[k].data);
    }

    lemma AfterWithin(post: seq<Block>, L: Table, b: Block, k: nat, v: Value, q: seq<ProgramPoint>, back: bool)
      requires TargetsComplete(post, L, b, back) && k < |dfg.Insts(b)|
      requires UseBeyond(post, AtInst(Inst(b, k)), v, q, back)
      requires Falls(b, k) && k + 1 < |dfg.Insts(b)| ==> Complete(post, AtInst(Inst(b, k + 1)), At(L, b, k + 1), back)
      ensures Within(After(L, b, k), v, Weight(q))
    {
      hide UsePath, Followed, Header, Earlier, TargetsComplete, EdgeWeight, UsesOf, Results, JoinEdges, Weight, At,
           UseAhead, Instruction.Targets;
      if Falls(b, k) {
        TailInside(post, AtInst(Inst(b, k)), v, q, back);
        assert Within(At(L, b, k + 1), v, Weight(q[1..]));
      } else {
        var t :| t in dfg.Insts(b)[k].data.Targets() && t.dest == q[1].block;
        TailOverEdge(post, L, b, k, v, q, back);
        assert Within(EdgeSet(L, b, t), v, Weight(q));
        EdgesWithin(L, b, dfg.Insts(b)[k].data.Targets(), t, v, Weight(q));
      }
    }

    lemma HeaderComplete(post: seq<Block>, L: Table, b: Block, back: bool)
      requires TargetsComplete(post, L, b, back) && |dfg.Insts(b)| > 0
      ensures Complete(post, AtBlock(b), HeaderSet(L, b), back)
    {
      hide UseAhead, UseBeyond, TargetsComplete, At;
      ScanComplete(post, L, b, 0, back);
      forall v: Value, q | UseAhead(post, AtBlock(b), v, q, back) ensures Within(HeaderSet(L, b), v, Weight(q)) {
        NoUseAtBlock(post, b, v, q, back);
        AheadIsBeyond(post, AtBlock(b), v, q, back);
        BeyondIsInside(post, AtBlock(b), v, q, back);
        TailInside(post, AtBlock(b), v, q, back);
        assert Within(At(L, b, 0), v, Weight(q[1..]));
      }
    }

    lemma BeyondIsInside(post: seq<Block>, x: ProgramPoint, v: Value, q: seq<ProgramPoint>, back: bool)
      requires UseBeyond(post, x, v, q, back) && x.AtBlock?
      ensures q[1] == AtInst(Inst(x.block, 0))
    {
      hide UsePath, Followed;
    }

    lemma NoUseAtBlock(post: seq<Block>, b: Block, v: Value, q: seq<ProgramPoint>, back: bool)
      requires UseAhead(post, AtBlock(b), v, q, back)
      ensures |q| > 1
    {
      hide Followed;
    }

    /** A block with a use ahead of its head is visited again, so an edge back to it finds it complete. */
    lemma UseAheadRevisits(post: seq<Block>, b: Block, v: Value, q: seq<ProgramPoint>)
      requires ForwardUse(post, AtBlock(b), v, q)
      ensures Revisited(post, b)
    {
      hide ForwardUse, RetreatTarget;
      assert HasForwardUse(post, AtBlock(b));
    }

    lemma {:induction false} ForwardSteps(post: seq<Block>, q: seq<ProgramPoint>)
      requires forall i: nat {:trigger q[i]} :: i + 1 < |q| ==> ForwardStep(post, q[i], q[i + 1])
      ensures Forward(post, q)
      decreases |q|
    {
      hide ForwardStep;
      if |q| > 1 {
        assert ForwardStep(post, q[0], q[0 + 1]);
        forall i: nat | i + 1 < |q[1..]| ensures ForwardStep(post, q[1..][i], q[1..][i + 1]) {
          assert q[1..][i] == q[i + 1];
        }
        ForwardSteps(post, q[1..]);
      }
    }

    /** Only the step at position `r` retreats. */
    ghost predicate RetreatsAt(post: seq<Block>, q: seq<ProgramPoint>, r: nat) {
      && r + 1 < |q| && !ForwardStep(post, q[r], q[r + 1]) && q[r + 1].block in post
      && forall i: nat {:trigger q[i]} :: i + 1 < |q| && i != r ==> ForwardStep(post, q[i], q[i + 1])
    }

    lemma {:induction false} RetreatsAtOnce(post: seq<Block>, q: seq<ProgramPoint>, r: nat)
      requires RetreatsAt(post, q, r) && forall i: nat :: i <= r ==> Revisited(post, q[i].PPBlock())
      ensures RetreatsOnce(post, q)
      decreases |q|
    {
      hide ForwardStep, Revisited;
      forall i: nat | i + 1 < |q[1..]| && i + 1 != r ensures ForwardStep(post, q[1..][i], q[1..][i + 1]) {
        assert q[1..][i] == q[i + 1];
      }
      if r == 0 {
        ForwardSteps(post, q[1..]);
      } else {
        assert ForwardStep(post, q[0], q[0 + 1]);
        assert q[1..][r - 1] == q[r] && q[1..][r] == q[r + 1];
        RetreatsAtOnce(post, q[1..], r - 1);
        assert Revisited(post, q[1].PPBlock());
      }
    }

    lemma {:induction false} UsePathFrom(q: seq<ProgramPoint>, v: Value, r: nat)
      requires UsePath(q, v) && r < |q|
      ensures UsePath(q[r..], v)
      decreases |q|
    {
      if r > 0 {
        UsePathFrom(q[1..], v, r - 1);
        assert q[1..][r - 1..] == q[r..];
      } else {
        assert q[0..] == q;
      }
    }

    /** Beyond the retreating edge the path is forward, so its target is visited again. */
    lemma TargetRevisits(post: seq<Block>, q: seq<ProgramPoint>, v: Value, r: nat)
      requires UsePath(q, v) && RetreatsAt(post, q, r)
      ensures Revisited(post, q[r + 1].block)
    {
      hide Revisited;
      var rest := q[r + 1..];
      UsePathFrom(q, v, r + 1);
      forall i: nat | i + 1 < |rest| ensures ForwardStep(post, rest[i], rest[i + 1]) {
        assert rest[i] == q[r + 1 + i];
      }
      ForwardSteps(post, rest);
      assert rest[0] == AtBlock(q[r + 1].block);
      UseAheadRevisits(post, q[r + 1].block, v, rest);
    }
  }

  predicate BranchesFrom(dfg: Dfg, b: Block, k: nat, t: JumpTable) {
    k < |dfg.Insts(b)| && t in dfg.Insts(b)[k].data.Targets()
  }

  /** `b` knows at least the values of `a`, at no greater distances. */
  ghost predicate Improves(a: NextUseSet, b: NextUseSet) {
    forall v :: v in a ==> v in b && b[v] <= a[v]
  }

  lemma ImprovesRefl(a: NextUseSet)
    ensures Improves(a, a)
  {
  }

  lemma PlusImproves(a: NextUseSet, b: NextUseSet, k: nat)
    requires Improves(a, b)
    ensures Improves(Plus(a, k), Plus(b, k))
  {
  }

  lemma MinusImproves(a: NextUseSet, b: NextUseSet, vs: seq<Value>)
    requires Improves(a, b)
    ensures Improves(Minus(a, vs), Minus(b, vs))
  {
  }

  lemma JoinImproves(a: NextUseSet, b: NextUseSet, c: NextUseSet, d: NextUseSet)
    requires Improves(a, b) && Improves(c, d)
    ensures Improves(Join(a, c), Join(b, d))
  {
  }

  lemma DefaultsImproves(a: NextUseSet, b: NextUseSet, vs: seq<Value>)
    requires Improves(a, b)
    ensures Improves(Defaults(a, vs), Defaults(b, vs))
  {
  }

  lemma UsedImproves(a: NextUseSet, b: NextUseSet, us: set<Value>)
    requires Improves(a, b)
    ensures Improves(Used(a, us), Used(b, us))
  {
  }

  ghost predicate HeadersImprove(L: Table, L': Table) {
    forall b: Block {:trigger Header(L, b)} {:trigger Header(L', b)} :: Improves(Header(L, b), Header(L', b))
  }

  ghost predicate SameHeaders(L: Table, L': Table) {
    forall b: Block {:trigger Header(L, b)} {:trigger Header(L', b)} :: Header(L, b) == Header(L', b)
  }

  ghost predicate Earlier(post: seq<Block>, s: Block, b: Block) {
    exists i: nat, j: nat :: i < j < |post| && post[i] == s && post[j] == b
  }

  // The values of a function

  ghost predicate Below(s: NextUseSet, m: nat) {
    forall v :: v in s ==> v < m
  }

  ghost predicate HeadersBelow(L: Table, m: nat) {
    forall b: Block {:trigger Header(L, b)} :: Below(Header(L, b), m)
  }

  predicate AllBelow(vs: seq<Value>, m: nat) {
    forall v :: v in vs ==> v < m
  }

  ghost predicate Mentions(node: InstNode, m: nat) {
    AllBelow(node.results, m) && forall v :: v in UsesOf(node.data) ==> v < m
  }

  ghost predicate ValuesBelow(dfg: Dfg, m: nat) {
    && (forall b: Block {:trigger dfg.Params(b)} :: AllBelow(dfg.Params(b), m))
    && (forall b: Block, k: nat {:trigger dfg.Insts(b)[k]} :: k < |dfg.Insts(b)| ==> Mentions(dfg.Insts(b)[k], m))
  }

  function ElementsOf(vs: seq<Value>): set<Value> {
    set v | v in vs
  }

  lemma {:induction false} SetBound(s: set<Value>) returns (m: nat)
    ensures forall v :: v in s ==> v < m
    decreases |s|
  {
    if s == {} {
      m := 0;
    } else {
      var x :| x in s;
      var n := SetBound(s - {x});
      m := if x < n then n else x + 1;
      forall v | v in s ensures v < m {
        assert v == x || v in s - {x};
      }
    }
  }

  lemma {:induction false} InstsBound(insts: seq<InstNode>) returns (m: nat)
    ensures forall k :: 0 <= k < |insts| ==> Mentions(insts[k], m)
    decreases |insts|
  {
    if |insts| == 0 {
      m := 0;
    } else {
      var n := InstsBound(insts[1..]);
      var us, rs := UsesOf(insts[0].data), ElementsOf(insts[0].results);
      var r := SetBound(us + rs);
      m := r + n;
      assert Mentions(insts[0], r) by {
        assert forall v :: v in insts[0].results ==> v in us + rs;
        assert forall v :: v in us ==> v in us + rs;
      }
      forall k | 0 <= k < |insts| ensures Mentions(insts[k], m) {
        if k > 0 {
          assert insts[1..][k - 1] == insts[k];
        }
        MentionsMore(insts[k], if k == 0 then r else n, m);
      }
    }
  }

  lemma {:induction false} BlocksBound(dfg: Dfg, n: nat) returns (m: nat)
    requires n <= |dfg.blocks|
    ensures forall b: Block {:trigger dfg.Params(b)} :: b < n ==> AllBelow(dfg.Params(b), m)
    ensures forall b: Block, k: nat {:trigger dfg.Insts(b)[k]} ::
        b < n && k < |dfg.Insts(b)| ==> Mentions(dfg.Insts(b)[k], m)
  {
    if n == 0 {
      m := 0;
    } else {
      hide Mentions;
      var r := BlocksBound(dfg, n - 1);
      var i := InstsBound(dfg.Insts(n - 1));
      var ps := ElementsOf(dfg.Params(n - 1));
      var p := SetBound(ps);
      m := r + i + p;
      forall b: Block | b < n ensures AllBelow(dfg.Params(b), m) {
        if b == n - 1 {
          assert forall v :: v in dfg.Params(b) ==> v in ps;
        } else {
          assert AllBelow(dfg.Params(b), r);
        }
      }
      forall b: Block, k: nat | b < n && k < |dfg.Insts(b)| ensures Mentions(dfg.Insts(b)[k], m) {
        MentionsMore(dfg.Insts(b)[k], if b == n - 1 then i else r, m);
      }
    }
  }

  lemma MentionsMore(node: InstNode, n: nat, m: nat)
    requires Mentions(node, n) && n <= m
    ensures Mentions(node, m)
  {
  }

  /** The function mentions finitely many values. */
  lemma ValuesBound(dfg: Dfg) returns (m: nat)
    ensures ValuesBelow(dfg, m)
  {
    m := BlocksBound(dfg, |dfg.blocks|);
  }

  // Settling

  /** A measure of the distances of the values below `m`; unknown ones count most. */
  ghost function SetRank(s: NextUseSet, m: nat): nat {
    if m == 0 then 0 else SetRank(s, m - 1) + if m - 1 in s then s[m - 1] else INFINITE + 1
  }

  ghost function HeaderRank(L: Table, b: Block, m: nat): nat {
    if AtBlock(b) in L then SetRank(L[AtBlock(b)], m) else SetRank(map[], m) + 1
  }

  ghost function TableRank(L: Table, n: nat, m: nat): nat {
    if n == 0 then 0 else TableRank(L, n - 1, m) + HeaderRank(L, n - 1, m)
  }

  lemma {:induction false} SetRankFalls(a: NextUseSet, b: NextUseSet, m: nat)
    requires Improves(a, b)
    ensures SetRank(b, m) <= SetRank(a, m)
  {
    if m > 0 {
      SetRankFalls(a, b, m - 1);
    }
  }

  lemma {:induction false} SetRankEqual(a: NextUseSet, b: NextUseSet, m: nat)
    requires Improves(a, b) && SetRank(b, m) == SetRank(a, m)
    ensures forall v :: v < m ==> (v in a <==> v in b) && (v in a ==> a[v] == b[v])
  {
    if m > 0 {
      SetRankFalls(a, b, m - 1);
      SetRankEqual(a, b, m - 1);
    }
  }

  lemma SameSet(a: NextUseSet, b: NextUseSet, m: nat)
    requires Improves(a, b) && forall v :: v in b ==> v < m
    requires forall v :: v < m ==> (v in a <==> v in b) && (v in a ==> a[v] == b[v])
    ensures a == b
  {
  }

  /** A set that has improved counts less. */
  lemma {:induction false} SetRankStrict(a: NextUseSet, b: NextUseSet, m: nat)
    requires Improves(a, b) && a != b && forall v :: v in b ==> v < m
    ensures SetRank(b, m) < SetRank(a, m)
  {
    SetRankFalls(a, b, m);
    if SetRank(b, m) == SetRank(a, m) {
      SetRankEqual(a, b, m);
      SameSet(a, b, m);
    }
  }

  /** The table `L'` is `L` with a better header for `b`; other headers may have been created empty. */
  ghost predicate HeaderUpdated(L: Table, L': Table, b: Block) {
    && AtBlock(b) in L' && Improves(Header(L, b), L'[AtBlock(b)])
    && (forall s: Block {:trigger Header(L', s)} :: s != b ==> Header(L', s) == Header(L, s))
    && (forall s: Block {:trigger AtBlock(s)} :: AtBlock(s) in L ==> AtBlock(s) in L')
  }

  lemma HeaderRankFalls(L: Table, L': Table, b: Block, s: Block, m: nat)
    requires HeaderUpdated(L, L', b)
    ensures HeaderRank(L', s, m) <= HeaderRank(L, s, m)
    ensures s == b && Below(Header(L', b), m) && (AtBlock(b) !in L || Header(L, b) != Header(L', b)) ==>
              HeaderRank(L', b, m) < HeaderRank(L, b, m)
  {
    hide SetRank;
    if s == b {
      SetRankFalls(Header(L, b), Header(L', b), m);
      if Header(L, b) != Header(L', b) && Below(Header(L', b), m) {
        SetRankStrict(Header(L, b), Header(L', b), m);
      }
    } else {
      assert Header(L', s) == Header(L, s);
    }
  }

  lemma {:induction false} TableRankFalls(L: Table, L': Table, b: Block, n: nat, m: nat)
    requires HeaderUpdated(L, L', b)
    ensures TableRank(L', n, m) <= TableRank(L, n, m)
    ensures b < n && Below(Header(L', b), m) && (AtBlock(b) !in L || Header(L, b) != Header(L', b)) ==>
              TableRank(L', n, m) < TableRank(L, n, m)
  {
    if n > 0 {
      hide HeaderRank, HeaderUpdated, Header, Below;
      TableRankFalls(L, L', b, n - 1, m);
      HeaderRankFalls(L, L', b, n - 1, m);
    }
  }
}
