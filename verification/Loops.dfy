/** Loop analysis: headers, bodies found by a backward search that jumps over inner loops, levels. */
module Loops {
  import opened IR
  import opened Graphs
  import opened ControlFlow
  import opened DomTreeTheory
  import opened Dominance
  import opened LoopTheory

  datatype LoopData = LoopData(header: Block, parent: Option<nat>, level: nat)

  /** The level of a loop that has not been given one, and the largest level. */
  const INVALID: nat := 255
  const MAX_LEVEL: nat := 254

  type LoopMap = seq<Option<nat>>

  function Inc(level: nat): nat {
    if level == MAX_LEVEL then level else level + 1
  }

  /** `l` is `c` or one of the loops around it. */
  predicate Under(loops: seq<LoopData>, c: nat, l: nat)
    decreases c
  {
    c == l ||
    (c < |loops| && loops[c].parent.Some? && loops[c].parent.value < c && Under(loops, loops[c].parent.value, l))
  }

  predicate InLoop(loops: seq<LoopData>, tags: LoopMap, b: Block, l: nat) {
    b < |tags| && tags[b].Some? && Under(loops, tags[b].value, l)
  }

  /** One loop per header, outer headers first. */
  ghost predicate HeadersOk(g: Graph, ns: seq<Node>, loops: seq<LoopData>) {
    && (forall i :: 0 <= i < |loops| ==> IsHeader(g, loops[i].header) && Numbered(ns, loops[i].header))
    && (forall i, j :: 0 <= i < j < |loops| ==> ns[loops[i].header].rpo < ns[loops[j].header].rpo)
    && (forall h: Block {:trigger IsHeader(g, h)} :: IsHeader(g, h) ==> HasLoop(loops, h))
  }

  ghost predicate HasLoop(loops: seq<LoopData>, h: Block) {
    exists i :: 0 <= i < |loops| && loops[i].header == h
  }

  /** Parents come before their children and not before `low`; only headers carry a tag below `low`. */
  ghost predicate ShapeOk(loops: seq<LoopData>, tags: LoopMap, low: nat) {
    && (forall i :: 0 <= i < |loops| && loops[i].parent.Some? ==> low <= loops[i].parent.value < i)
    && (forall b :: 0 <= b < |tags| && tags[b].Some? ==>
          tags[b].value < |loops| && (tags[b].value < low ==> b == loops[tags[b].value].header))
    && (forall i :: 0 <= i < |loops| ==> loops[i].header < |tags| && tags[loops[i].header] == Some(i))
  }

  /** The bodies of the loops from `done` on have been found. */
  ghost predicate BodiesFrom(g: Graph, loops: seq<LoopData>, tags: LoopMap, done: nat) {
    forall j: nat, b: Block {:trigger InLoop(loops, tags, b, j)} ::
      done <= j < |loops| ==> (InLoop(loops, tags, b, j) <==> InBody(g, loops[j].header, b))
  }

  ghost predicate LoopsInv(g: Graph, ns: seq<Node>, loops: seq<LoopData>, tags: LoopMap, low: nat, done: nat) {
    && |tags| == |g.succs| && HeadersOk(g, ns, loops) && ShapeOk(loops, tags, low) && BodiesFrom(g, loops, tags, done)
  }

  /** The search for the body of loop `l`. */
  ghost predicate SearchInv(g: Graph, loops: seq<LoopData>, tags: LoopMap, l: nat, stack: seq<Block>) {
    && l < |loops| && loops[l].parent.None?
    && (forall b: Block {:trigger InLoop(loops, tags, b, l)} ::
          InLoop(loops, tags, b, l) ==> InBody(g, loops[l].header, b))
    && (forall b: Block :: b in stack ==> InBody(g, loops[l].header, b))
    && (forall p: Block, b: Block {:trigger Edge(g, p, b)} ::
          InLoop(loops, tags, b, l) && b != loops[l].header && Edge(g, p, b) ==>
            InLoop(loops, tags, p, l) || p in stack)
    && (forall s: Block {:trigger BackEdge(g, s, loops[l].header)} ::
          BackEdge(g, s, loops[l].header) ==> InLoop(loops, tags, s, l) || s in stack)
  }

  // Chains of loops

  lemma {:induction false} UnderTrans(loops: seq<LoopData>, a: nat, b: nat, c: nat)
    requires Under(loops, a, b) && Under(loops, b, c)
    ensures Under(loops, a, c)
    decreases a
  {
    if a != b {
      UnderTrans(loops, loops[a].parent.value, b, c);
    }
  }

  lemma {:induction false} UnderBounds(loops: seq<LoopData>, c: nat, l: nat, low: nat)
    requires Under(loops, c, l)
    requires forall i :: 0 <= i < |loops| && loops[i].parent.Some? ==> low <= loops[i].parent.value < i
    ensures l <= c && (l < c ==> low <= l)
    decreases c
  {
    if c != l {
      UnderBounds(loops, loops[c].parent.value, l, low);
    }
  }

  /** Giving the root `r` the parent `l` puts what was under `r` under `l` as well. */
  lemma {:induction false} UnderAfterLink(loops: seq<LoopData>, r: nat, l: nat, c: nat, j: nat)
    requires l < r < |loops| && loops[r].parent.None? && loops[l].parent.None?
    ensures var loops' := loops[r := loops[r].(parent := Some(l))];
            Under(loops', c, j) <==> Under(loops, c, j) || (j == l && Under(loops, c, r))
    decreases c
  {
    var loops' := loops[r := loops[r].(parent := Some(l))];
    if c < |loops| && c != r && loops[c].parent.Some? && loops[c].parent.value < c {
      UnderAfterLink(loops, r, l, loops[c].parent.value, j);
    } else if c == r {
      assert Under(loops', l, j) <==> j == l;
    }
  }

  // Steps of the search

  lemma SearchBegin(g: Graph, ns: seq<Node>, loops: seq<LoopData>, tags: LoopMap, l: nat, stack: seq<Block>)
    requires l < |loops| && LoopsInv(g, ns, loops, tags, l + 1, l + 1)
    requires forall s: Block :: s in stack <==> BackEdge(g, s, loops[l].header)
    ensures LoopsInv(g, ns, loops, tags, l, l + 1) && SearchInv(g, loops, tags, l, stack)
  {
    forall b: Block | InLoop(loops, tags, b, l) ensures b == loops[l].header {
      UnderBounds(loops, tags[b].value, l, l + 1);
    }
    forall b: Block | b in stack ensures InBody(g, loops[l].header, b) {
      BackEdgeInBody(g, loops[l].header, b);
    }
  }

  /** Popping a block that is already in the loop. */
  lemma SearchSkip(g: Graph, loops: seq<LoopData>, tags: LoopMap, l: nat, stack: seq<Block>)
    requires SearchInv(g, loops, tags, l, stack) && |stack| > 0 && InLoop(loops, tags, stack[|stack| - 1], l)
    ensures SearchInv(g, loops, tags, l, stack[..|stack| - 1])
  {
    assert stack == stack[..|stack| - 1] + [stack[|stack| - 1]];
  }

  /** `stack'` is `stack` without its top, with the predecessors of `b` added. */
  ghost predicate PredsPushed(g: Graph, stack: seq<Block>, b: Block, stack': seq<Block>)
    requires |stack| > 0
  {
    && (forall x :: x in stack[..|stack| - 1] ==> x in stack')
    && (forall p: Block {:trigger Edge(g, p, b)} :: Edge(g, p, b) ==> p in stack')
    && (forall x: Block :: x in stack' ==> x in stack[..|stack| - 1] || Edge(g, x, b))
  }

  /** Popping a block that is in no loop yet. */
  lemma SearchTag(g: Graph, ns: seq<Node>, loops: seq<LoopData>, tags: LoopMap,
          l: nat, stack: seq<Block>, stack': seq<Block>)
    requires LoopsInv(g, ns, loops, tags, l, l + 1) && SearchInv(g, loops, tags, l, stack)
    requires |stack| > 0 && stack[|stack| - 1] < |tags| && tags[stack[|stack| - 1]].None?
    requires PredsPushed(g, stack, stack[|stack| - 1], stack')
    ensures var tags' := tags[stack[|stack| - 1] := Some(l)];
            LoopsInv(g, ns, loops, tags', l, l + 1) && SearchInv(g, loops, tags', l, stack')
  {
    var b := stack[|stack| - 1];
    var tags' := tags[b := Some(l)];
    forall x: Block, j: nat ensures InLoop(loops, tags', x, j) <==> InLoop(loops, tags, x, j) || (x == b && j == l) {
      assert Under(loops, l, j) <==> j == l;
    }
    TagKeepsBodies(g, loops, tags, tags', l, b);
    TagKeepsSearch(g, loops, tags, tags', l, stack, stack');
  }

  lemma TagKeepsSearch(g: Graph, loops: seq<LoopData>, tags: LoopMap, tags': LoopMap,
          l: nat, stack: seq<Block>, stack': seq<Block>)
    requires SearchInv(g, loops, tags, l, stack) && |stack| > 0
    requires stack[|stack| - 1] != loops[l].header && PredsPushed(g, stack, stack[|stack| - 1], stack')
    requires forall x: Block, j: nat {:trigger InLoop(loops, tags', x, j)} ::
               InLoop(loops, tags', x, j) <==> InLoop(loops, tags, x, j) || (x == stack[|stack| - 1] && j == l)
    ensures SearchInv(g, loops, tags', l, stack')
  {
    var b := stack[|stack| - 1];
    assert stack == stack[..|stack| - 1] + [b];
    forall x: Block | x in stack' ensures InBody(g, loops[l].header, x) {
      if x !in stack[..|stack| - 1] {
        BodyPred(g, loops[l].header, x, b);
      }
    }
  }

  lemma TagKeepsBodies(g: Graph, loops: seq<LoopData>, tags: LoopMap, tags': LoopMap, l: nat, b: Block)
    requires BodiesFrom(g, loops, tags, l + 1)
    requires forall x: Block, j: nat {:trigger InLoop(loops, tags', x, j)} ::
               InLoop(loops, tags', x, j) <==> InLoop(loops, tags, x, j) || (x == b && j == l)
    ensures BodiesFrom(g, loops, tags', l + 1)
  {
    forall j: nat, x: Block | l + 1 <= j < |loops|
      ensures InLoop(loops, tags', x, j) <==> InBody(g, loops[j].header, x)
    {
      assert InLoop(loops, tags, x, j) <==> InBody(g, loops[j].header, x);
    }
  }

  lemma TagBelowIsOuter(g: Graph, ns: seq<Node>, loops: seq<LoopData>, tags: LoopMap, l: nat, b: Block)
    requires HeadersOk(g, ns, loops) && ShapeOk(loops, tags, l) && l < |loops|
    requires b < |tags| && tags[b].Some? && tags[b].value < l
    ensures IsHeader(g, b) && Numbered(ns, b) && ns[b].rpo < ns[loops[l].header].rpo
  {
  }

  /** The outermost loop found so far around a block of the body is inside the present loop. */
  lemma RootIsInner(g: Graph, ns: seq<Node>, loops: seq<LoopData>, tags: LoopMap, l: nat, r: nat, b: Block)
    requires LoopsNested(g) && SearchTree(g, ns)
    requires LoopsInv(g, ns, loops, tags, l, l + 1) && l < |loops| && InBody(g, loops[l].header, b)
    requires InLoop(loops, tags, b, r) && r != l
    ensures l < r < |loops| && InBody(g, loops[r].header, b)
    ensures InBody(g, loops[l].header, loops[r].header) && loops[l].header != loops[r].header
  {
    var h := loops[l].header;
    UnderBounds(loops, tags[b].value, r, l);
    if tags[b].value < l {
      TagBelowIsOuter(g, ns, loops, tags, l, b);
      OuterNotInBody(g, ns, h, b);
      assert false;
    }
    assert InLoop(loops, tags, b, r) <==> InBody(g, loops[r].header, b);
    var k := loops[r].header;
    assert IsHeader(g, h) && IsHeader(g, k);
    if !InBody(g, h, k) {
      OuterNotInBody(g, ns, k, h);
    }
  }

  /** A header in the body of a loop is not numbered before that loop's header. */
  lemma OuterNotInBody(g: Graph, ns: seq<Node>, h: Block, k: Block)
    requires SearchTree(g, ns) && IsHeader(g, h) && IsHeader(g, k) && ns[k].rpo < ns[h].rpo
    ensures !InBody(g, h, k)
  {
    if InBody(g, h, k) {
      HeaderReachable(g, k);
      BodyDominated(g, h, k);
      DomNum(g, ns, h, k);
    }
  }

  /** Popping a block whose outermost loop so far is `r`: `r` becomes a child of `l`. */
  lemma SearchLink(g: Graph, ns: seq<Node>, loops: seq<LoopData>, tags: LoopMap, l: nat,
          r: nat, stack: seq<Block>, stack': seq<Block>)
    requires LoopsNested(g) && SearchTree(g, ns)
    requires LoopsInv(g, ns, loops, tags, l, l + 1) && SearchInv(g, loops, tags, l, stack) && |stack| > 0
    requires InLoop(loops, tags, stack[|stack| - 1], r) && r < |loops| && loops[r].parent.None? && r != l
    requires PredsPushed(g, stack, loops[r].header, stack')
    ensures var loops' := loops[r := loops[r].(parent := Some(l))];
            l < r && LoopsInv(g, ns, loops', tags, l, l + 1) && SearchInv(g, loops', tags, l, stack')
  {
    var loops' := loops[r := loops[r].(parent := Some(l))];
    RootIsInner(g, ns, loops, tags, l, r, stack[|stack| - 1]);
    LinkKeepsShape(loops, tags, l, r);
    hide *;
    LoopsParts(g, ns, loops, tags, l, l + 1);
    SearchRoot(g, loops, tags, l, stack);
    InLoopAfterLink(loops, loops', tags, l, r);
    LinkKeepsHeaders(g, ns, loops, r, l);
    LinkKeepsBodies(g, loops, loops', tags, l, r);
    LinkKeepsSearch(g, loops, tags, l, r, stack, stack');
    LoopsRestate(g, ns, loops', tags, l, l + 1);
  }

  lemma InLoopAfterLink(loops: seq<LoopData>, loops': seq<LoopData>, tags: LoopMap, l: nat, r: nat)
    requires l < r < |loops| && loops[r].parent.None? && loops[l].parent.None?
    requires loops' == loops[r := loops[r].(parent := Some(l))]
    ensures forall x: Block, j: nat {:trigger InLoop(loops', tags, x, j)} ::
              InLoop(loops', tags, x, j) <==> InLoop(loops, tags, x, j) || (j == l && InLoop(loops, tags, x, r))
  {
    forall x: Block, j: nat
      ensures InLoop(loops', tags, x, j) <==> InLoop(loops, tags, x, j) || (j == l && InLoop(loops, tags, x, r))
    {
      if x < |tags| && tags[x].Some? {
        UnderAfterLink(loops, r, l, tags[x].value, j);
      }
    }
  }

  lemma LinkKeepsShape(loops: seq<LoopData>, tags: LoopMap, l: nat, r: nat)
    requires l < r < |loops|
    ensures ShapeOk(loops, tags, l) ==> ShapeOk(loops[r := loops[r].(parent := Some(l))], tags, l)
  {
  }

  lemma LoopsParts(g: Graph, ns: seq<Node>, loops: seq<LoopData>, tags: LoopMap, low: nat, done: nat)
    requires LoopsInv(g, ns, loops, tags, low, done)
    ensures |tags| == |g.succs| && HeadersOk(g, ns, loops) && ShapeOk(loops, tags, low)
    ensures BodiesFrom(g, loops, tags, done)
    ensures forall i :: 0 <= i < |loops| ==> IsHeader(g, loops[i].header)
  {
  }

  lemma LoopsRestate(g: Graph, ns: seq<Node>, loops: seq<LoopData>, tags: LoopMap, low: nat, done: nat)
    requires |tags| == |g.succs| && HeadersOk(g, ns, loops) && ShapeOk(loops, tags, low)
    requires BodiesFrom(g, loops, tags, done)
    ensures LoopsInv(g, ns, loops, tags, low, done)
  {
  }

  lemma SearchRoot(g: Graph, loops: seq<LoopData>, tags: LoopMap, l: nat, stack: seq<Block>)
    requires SearchInv(g, loops, tags, l, stack)
    ensures l < |loops| && loops[l].parent.None?
    ensures forall k :: 0 <= k < |stack| ==> InBody(g, loops[l].header, stack[k])
  {
  }

  lemma LinkKeepsHeaders(g: Graph, ns: seq<Node>, loops: seq<LoopData>, r: nat, l: nat)
    requires HeadersOk(g, ns, loops) && r < |loops|
    ensures HeadersOk(g, ns, loops[r := loops[r].(parent := Some(l))])
  {
    var loops' := loops[r := loops[r].(parent := Some(l))];
    assert forall i :: 0 <= i < |loops| ==> loops'[i].header == loops[i].header;
    forall h: Block | IsHeader(g, h) ensures HasLoop(loops', h) {
      assert HasLoop(loops, h);
      var i :| 0 <= i < |loops| && loops[i].header == h;
      assert loops'[i].header == h;
    }
  }

  lemma LinkKeepsBodies(g: Graph, loops: seq<LoopData>, loops': seq<LoopData>, tags: LoopMap, l: nat, r: nat)
    requires BodiesFrom(g, loops, tags, l + 1) && r < |loops| && loops' == loops[r := loops[r].(parent := Some(l))]
    requires forall x: Block, j: nat {:trigger InLoop(loops', tags, x, j)} ::
               InLoop(loops', tags, x, j) <==> InLoop(loops, tags, x, j) || (j == l && InLoop(loops, tags, x, r))
    ensures BodiesFrom(g, loops', tags, l + 1)
  {
    forall j: nat, x: Block | l + 1 <= j < |loops'|
      ensures InLoop(loops', tags, x, j) <==> InBody(g, loops'[j].header, x)
    {
      assert InLoop(loops, tags, x, j) <==> InBody(g, loops[j].header, x);
    }
  }

  lemma LinkKeepsSearch(g: Graph, loops: seq<LoopData>, tags: LoopMap, l: nat,
          r: nat, stack: seq<Block>, stack': seq<Block>)
    requires SearchInv(g, loops, tags, l, stack) && |stack| > 0 && l < r < |loops|
    requires IsHeader(g, loops[l].header) && IsHeader(g, loops[r].header)
    requires InBody(g, loops[l].header, loops[r].header) && loops[l].header != loops[r].header
    requires InBody(g, loops[r].header, stack[|stack| - 1])
    requires BodiesFrom(g, loops, tags, l + 1)
    requires PredsPushed(g, stack, loops[r].header, stack')
    requires forall x: Block, j: nat {:trigger InLoop(loops[r := loops[r].(parent := Some(l))], tags, x, j)} ::
               InLoop(loops[r := loops[r].(parent := Some(l))], tags, x, j)
               <==> InLoop(loops, tags, x, j) || (j == l && InLoop(loops, tags, x, r))
    ensures SearchInv(g, loops[r := loops[r].(parent := Some(l))], tags, l, stack')
  {
    hide InBody, IsHeader, InLoop, Edge, BackEdge;
    var b, h, k := stack[|stack| - 1], loops[l].header, loops[r].header;
    assert stack == stack[..|stack| - 1] + [b];
    var loops' := loops[r := loops[r].(parent := Some(l))];
    forall x: Block ensures InLoop(loops, tags, x, r) <==> InBody(g, k, x) {
    }
    forall x: Block | InLoop(loops, tags, x, r) ensures InBody(g, h, x) {
      LoopsNest(g, h, k, x);
    }
    forall x: Block | x in stack' ensures InBody(g, h, x) {
      if x !in stack[..|stack| - 1] {
        BodyPred(g, h, x, k);
      }
    }
    forall p: Block, x: Block | InLoop(loops', tags, x, l) && x != h && Edge(g, p, x)
      ensures InLoop(loops', tags, p, l) || p in stack'
    {
      if !InLoop(loops, tags, x, l) && x != k {
        BodyPred(g, k, p, x);
      }
    }
  }

  /** An exhausted search has found the whole body. */
  lemma SearchComplete(g: Graph, loops: seq<LoopData>, tags: LoopMap, l: nat, b: Block)
    requires SearchInv(g, loops, tags, l, []) && InLoop(loops, tags, loops[l].header, l)
    requires InBody(g, loops[l].header, b)
    ensures InLoop(loops, tags, b, l)
  {
    var h := loops[l].header;
    if b != h {
      var q :| LoopPath(g, h, q, b);
      assert InLoop(loops, tags, Last(q), l);
      PathInLoop(g, loops, tags, l, q);
    }
  }

  lemma {:induction false} PathInLoop(g: Graph, loops: seq<LoopData>, tags: LoopMap, l: nat, q: seq<Block>)
    requires SearchInv(g, loops, tags, l, []) && IsPath(g, q) && loops[l].header !in q
    requires InLoop(loops, tags, Last(q), l)
    ensures InLoop(loops, tags, q[0], l)
    decreases |q|
  {
    if |q| > 1 {
      assert InLoop(loops, tags, Last(Front(q)), l);
      PathInLoop(g, loops, tags, l, Front(q));
    }
  }

  lemma SearchEnd(g: Graph, ns: seq<Node>, loops: seq<LoopData>, tags: LoopMap, l: nat)
    requires LoopsInv(g, ns, loops, tags, l, l + 1) && SearchInv(g, loops, tags, l, [])
    ensures LoopsInv(g, ns, loops, tags, l, l)
  {
    var h := loops[l].header;
    assert InLoop(loops, tags, h, l) by {
      assert tags[h] == Some(l);
    }
    hide SearchInv, HeadersOk;
    forall j: nat, b: Block | l <= j < |loops| ensures InLoop(loops, tags, b, j) <==> InBody(g, loops[j].header, b) {
      if j > l {
        assert InLoop(loops, tags, b, j) <==> InBody(g, loops[j].header, b);
      } else {
        if InBody(g, h, b) {
          SearchComplete(g, loops, tags, l, b);
        }
        SearchSound(g, loops, tags, l, b);
      }
    }
  }

  lemma SearchSound(g: Graph, loops: seq<LoopData>, tags: LoopMap, l: nat, b: Block)
    requires SearchInv(g, loops, tags, l, [])
    ensures InLoop(loops, tags, b, l) ==> InBody(g, loops[l].header, b)
  {
  }

  // Levels

  /** How many loops there are from the outermost one down to `l`. */
  ghost function Depth(loops: seq<LoopData>, l: nat): nat
    requires l < |loops|
    decreases l
  {
    if loops[l].parent.Some? && loops[l].parent.value < l then 1 + Depth(loops, loops[l].parent.value) else 1
  }

  ghost function LevelFor(depth: nat): nat {
    if depth < MAX_LEVEL then depth else MAX_LEVEL
  }

  ghost predicate ParentsBefore(loops: seq<LoopData>) {
    forall i :: 0 <= i < |loops| && loops[i].parent.Some? ==> loops[i].parent.value < i
  }

  ghost predicate LevelsSet(loops: seq<LoopData>, upTo: nat) {
    forall i :: 0 <= i < upTo && i < |loops| ==> loops[i].level == LevelFor(Depth(loops, i))
  }

  /** The loop and those around it. */
  ghost function Enclosing(loops: seq<LoopData>, l: nat): set<nat>
    requires l < |loops|
    decreases l
  {
    {l} + if loops[l].parent.Some? && loops[l].parent.value < l then Enclosing(loops, loops[l].parent.value) else {}
  }

  lemma {:induction false} EnclosingIsUnder(loops: seq<LoopData>, l: nat)
    requires l < |loops| && ParentsBefore(loops)
    ensures forall j: nat :: j in Enclosing(loops, l) <==> Under(loops, l, j)
    ensures forall j: nat :: j in Enclosing(loops, l) ==> j <= l
    ensures |Enclosing(loops, l)| == Depth(loops, l)
    decreases l
  {
    if loops[l].parent.Some? {
      EnclosingIsUnder(loops, loops[l].parent.value);
      assert l !in Enclosing(loops, loops[l].parent.value);
    }
  }

  /** Levels and depths depend on the parents only. */
  lemma {:induction false} DepthFrame(loops: seq<LoopData>, loops': seq<LoopData>, l: nat)
    requires l < |loops| == |loops'| && forall i :: 0 <= i < |loops| ==> loops'[i].parent == loops[i].parent
    ensures Depth(loops', l) == Depth(loops, l)
    decreases l
  {
    if loops[l].parent.Some? && loops[l].parent.value < l {
      DepthFrame(loops, loops', loops[l].parent.value);
    }
  }

  // The result

  /** The loop structure matches the natural loops of the function. */
  ghost predicate IsLoopForest(dfg: Dfg, ns: seq<Node>, loops: seq<LoopData>, tags: LoopMap) {
    LoopsInv(GraphOf(dfg), ns, loops, tags, 0, 0) && LevelsSet(loops, |loops|)
  }

  /** A parent's header strictly dominates its child's, and the child's body is part of the parent's. */
  lemma ParentContains(dfg: Dfg, ns: seq<Node>, loops: seq<LoopData>, tags: LoopMap, c: nat)
    requires IsLoopForest(dfg, ns, loops, tags)
    requires c < |loops| && loops[c].parent.Some?
    ensures loops[c].parent.value < c
    ensures StrictDom(GraphOf(dfg), loops[loops[c].parent.value].header, loops[c].header)
    ensures forall b: Block :: InBody(GraphOf(dfg), loops[c].header, b)
                               ==> InBody(GraphOf(dfg), loops[loops[c].parent.value].header, b)
  {
    var g, p := GraphOf(dfg), loops[c].parent.value;
    var h, k := loops[p].header, loops[c].header;
    assert tags[k] == Some(c) && Under(loops, c, p);
    assert InLoop(loops, tags, k, p) <==> InBody(g, h, k);
    BodyDominated(g, h, k);
    forall b: Block | InBody(g, k, b) ensures InBody(g, h, b) {
      LoopsNest(g, h, k, b);
    }
  }

  /** The loop recorded for a block is the smallest around it; without one the block is in no loop. */
  lemma InnermostIsSmallest(dfg: Dfg, ns: seq<Node>, loops: seq<LoopData>, tags: LoopMap, b: Block)
    requires IsLoopForest(dfg, ns, loops, tags) && b < |tags|
    ensures tags[b].None? <==> forall h: Block :: IsHeader(GraphOf(dfg), h) ==> !InBody(GraphOf(dfg), h, b)
    ensures tags[b].Some? ==>
              && tags[b].value < |loops| && InBody(GraphOf(dfg), loops[tags[b].value].header, b)
              && forall h: Block, x: Block ::
                   (IsHeader(GraphOf(dfg), h) && InBody(GraphOf(dfg), h, b)
                    && InBody(GraphOf(dfg), loops[tags[b].value].header, x)) ==> InBody(GraphOf(dfg), h, x)
  {
    var g := GraphOf(dfg);
    forall h: Block | IsHeader(g, h) && InBody(g, h, b) ensures tags[b].Some? {
      assert HasLoop(loops, h);
      var j :| 0 <= j < |loops| && loops[j].header == h;
      assert InLoop(loops, tags, b, j);
    }
    if tags[b].Some? {
      var m := tags[b].value;
      assert InLoop(loops, tags, b, m);
      assert IsHeader(g, loops[m].header);
      forall h: Block, x: Block | IsHeader(g, h) && InBody(g, h, b) && InBody(g, loops[m].header, x)
        ensures InBody(g, h, x)
      {
        assert HasLoop(loops, h);
        var j :| 0 <= j < |loops| && loops[j].header == h;
        assert InLoop(loops, tags, b, j) && InLoop(loops, tags, x, m);
        UnderTrans(loops, tags[x].value, m, j);
        assert InLoop(loops, tags, x, j);
      }
    }
  }

  /** The loops whose bodies hold the header of `l`. */
  ghost function Around(g: Graph, loops: seq<LoopData>, l: nat): set<nat>
    requires l < |loops|
  {
    set j | 0 <= j < |loops| && InBody(g, loops[j].header, loops[l].header)
  }

  /** Each level is the nesting depth, cut off at the largest level. */
  lemma LevelIsNesting(dfg: Dfg, ns: seq<Node>, loops: seq<LoopData>, tags: LoopMap, l: nat)
    requires IsLoopForest(dfg, ns, loops, tags) && l < |loops|
    ensures loops[l].level == LevelFor(|Around(GraphOf(dfg), loops, l)|)
  {
    hide HeadersOk, InBody, Enclosing, LevelFor, Depth, GraphOf, IsHeader;
    var g, k := GraphOf(dfg), loops[l].header;
    EnclosingIsUnder(loops, l);
    assert tags[k] == Some(l);
    forall j: nat ensures j in Enclosing(loops, l) <==> j in Around(g, loops, l) {
      if j < |loops| {
        assert InLoop(loops, tags, k, j) <==> InBody(g, loops[j].header, k);
      }
    }
    assert Enclosing(loops, l) == Around(g, loops, l);
  }

  /** The loops that hold a block are nested in one another. */
  lemma {:induction false} UnderChain(loops: seq<LoopData>, c: nat, j: nat, k: nat)
    requires Under(loops, c, j) && Under(loops, c, k)
    ensures Under(loops, j, k) || Under(loops, k, j)
    decreases c
  {
    if c != j && c != k {
      UnderChain(loops, loops[c].parent.value, j, k);
    }
  }

  lemma TwoLoopsNested(dfg: Dfg, ns: seq<Node>, loops: seq<LoopData>, tags: LoopMap, h: Block, k: Block, b: Block)
    requires IsLoopForest(dfg, ns, loops, tags) && IsHeader(GraphOf(dfg), h) && IsHeader(GraphOf(dfg), k)
    requires InBody(GraphOf(dfg), h, b) && InBody(GraphOf(dfg), k, b)
    ensures InBody(GraphOf(dfg), h, k) || InBody(GraphOf(dfg), k, h)
  {
    hide InBody, LevelsSet, Numbered, Under, GraphOf;
    var g := GraphOf(dfg);
    assert HasLoop(loops, h) && HasLoop(loops, k);
    var i :| 0 <= i < |loops| && loops[i].header == h;
    var j :| 0 <= j < |loops| && loops[j].header == k;
    assert InLoop(loops, tags, b, i) && InLoop(loops, tags, b, j);
    UnderChain(loops, tags[b].value, i, j);
    assert InLoop(loops, tags, h, j) <==> InBody(g, k, h);
    assert InLoop(loops, tags, k, i) <==> InBody(g, h, k);
  }

  /** A forest describes the natural loops only if they are nested. */
  lemma ForestNeedsNesting(dfg: Dfg, ns: seq<Node>, loops: seq<LoopData>, tags: LoopMap)
    requires IsLoopForest(dfg, ns, loops, tags)
    ensures LoopsNested(GraphOf(dfg))
  {
    hide IsLoopForest, InBody, IsHeader, GraphOf;
    var g := GraphOf(dfg);
    forall h: nat, k: nat, b: nat | IsHeader(g, h) && IsHeader(g, k) && InBody(g, h, b) && InBody(g, k, b)
      ensures InBody(g, h, k) || InBody(g, k, h)
    {
      TwoLoopsNested(dfg, ns, loops, tags, h, k, b);
    }
  }

  function CondTo(t: Block, e: Block): seq<InstNode> {
    [InstNode(CondBr(0, JumpTable(t, []), JumpTable(e, [])), [])]
  }

  function BrTo(t: Block): seq<InstNode> {
    [InstNode(Br(JumpTable(t, [])), [])]
  }

  /** Two loops beside each other, and an unreachable block that branches into both. */
  function Stray(): Dfg {
    Dfg(0, [BlockData([0], CondTo(1, 2)), BlockData([], BrTo(3)), BlockData([], BrTo(4)), BlockData([], CondTo(1, 5)),
            BlockData([], CondTo(2, 5)), BlockData([], [InstNode(Ret([]), [])]), BlockData([], CondTo(3, 4))],
        map[], map[])
  }

  lemma CondSuccs(d: Dfg, b: Block, t: Block, e: Block)
    requires d.Insts(b) == CondTo(t, e)
    ensures SuccSet(d, b) == {t, e}
  {
    BranchSuccs(d, b);
  }

  lemma BrSuccs(d: Dfg, b: Block, t: Block)
    requires d.Insts(b) == BrTo(t)
    ensures SuccSet(d, b) == {t}
  {
    BranchSuccs(d, b);
  }

  lemma StraySuccs(u: Block)
    ensures Stray().NumBlocks() == 7
    ensures SuccSet(Stray(), u) == if u == 0 then {1, 2} else if u == 1 then {3} else if u == 2 then {4}
                                   else if u == 3 then {1, 5} else if u == 4 then {2, 5}
                                   else if u == 6 then {3, 4} else {}
  {
    var d := Stray();
    hide SuccSet, CondTo, BrTo;
    CondSuccs(d, 0, 1, 2);
    BrSuccs(d, 1, 3);
    BrSuccs(d, 2, 4);
    CondSuccs(d, 3, 1, 5);
    CondSuccs(d, 4, 2, 5);
    CondSuccs(d, 6, 3, 4);
    if u == 5 || u > 6 {
      NoSuccs(d, u);
    }
  }

  lemma StrayEdge(u: Block, v: Block)
    ensures |GraphOf(Stray()).succs| == 7 && GraphOf(Stray()).entry == 0
    ensures Edge(GraphOf(Stray()), u, v) <==>
            ((u == 0 && (v == 1 || v == 2)) || (u == 1 && v == 3) || (u == 2 && v == 4)
             || (u == 3 && (v == 1 || v == 5)) || (u == 4 && (v == 2 || v == 5)) || (u == 6 && (v == 3 || v == 4)))
  {
    hide SuccSet, Stray, Edge, GraphOf;
    StrayEntry();
    EdgeIff(Stray(), u, v);
    StraySuccs(u);
  }

  lemma StrayEntry()
    ensures Stray().entry == 0
  {
  }

  /** Blocks 3 and 4 lie in the loops of 1 and 2, and so does the unreachable block, in both. */
  lemma StrayBody(h: Block, s: Block)
    requires (h == 1 && s == 3) || (h == 2 && s == 4)
    ensures BackEdge(GraphOf(Stray()), s, h) && InBody(GraphOf(Stray()), h, 6)
  {
    hide Stray, GraphOf;
    var g := GraphOf(Stray());
    StrayEdge(0, h);
    StrayEdge(h, s);
    StrayEdge(s, h);
    StrayEdge(6, s);
    EntryReachable(g);
    ReachableStep(g, 0, h);
    ReachableStep(g, h, s);
    forall f: nat | Edge(g, f, s) && Reachable(g, f) ensures Dom(g, h, f) {
      StrayEdge(f, s);
      DomRefl(g, h);
      StrayUnreachable();
    }
    DomFromPreds(g, h, s);
    assert IsPath(g, [s]);
    PathPrepend(g, 6, [s]);
    assert LoopPath(g, h, [6] + [s], 6);
  }

  lemma StrayUnreachable()
    ensures !Reachable(GraphOf(Stray()), 6)
  {
    hide Stray, GraphOf;
    var g := GraphOf(Stray());
    forall p: seq<nat> | IsPath(g, p) && p[0] == g.entry ensures Last(p) != 6 {
      StrayEdge(0, 0);
      if |p| > 1 {
        StrayEdge(Last(Front(p)), Last(p));
      }
    }
  }

  /** Neither header leads to the other's back edge. */
  lemma {:induction false} StrayStays(h: Block, s: Block, q: seq<nat>)
    requires ((h == 1 && s == 3) || (h == 2 && s == 4)) && IsPath(GraphOf(Stray()), q) && q[0] == h
    ensures Last(q) == h || Last(q) == s || Last(q) == 5
    decreases |q|
  {
    hide Stray, GraphOf;
    if |q| > 1 {
      StrayStays(h, s, Front(q));
      StrayEdge(Last(Front(q)), Last(q));
    }
  }

  lemma StrayApart(h: Block, s: Block, k: Block)
    requires ((h == 1 && s == 3) || (h == 2 && s == 4)) && (k == 1 || k == 2) && k != h
    ensures !InBody(GraphOf(Stray()), k, h)
  {
    hide Stray, GraphOf;
    var g := GraphOf(Stray());
    if q :| LoopPath(g, k, q, h) {
      StrayStays(h, s, q);
      StrayEdge(Last(q), k);
    }
  }

  lemma StrayNotNested()
    ensures !LoopsNested(GraphOf(Stray()))
  {
    hide Stray, InBody, GraphOf;
    var g := GraphOf(Stray());
    StrayBody(1, 3);
    StrayBody(2, 4);
    StrayApart(1, 3, 2);
    StrayApart(2, 4, 1);
    assert InBody(g, 1, 6) && InBody(g, 2, 6) && IsHeader(g, 1) && IsHeader(g, 2);
  }

  /** No tags and parents describe the natural loops of this function. */
  lemma StrayHasNoForest(ns: seq<Node>, loops: seq<LoopData>, tags: LoopMap)
    ensures !IsLoopForest(Stray(), ns, loops, tags)
  {
    hide IsLoopForest, Stray, LoopsNested, GraphOf;
    StrayNotNested();
    if IsLoopForest(Stray(), ns, loops, tags) {
      ForestNeedsNesting(Stray(), ns, loops, tags);
    }
  }

  // Finding headers

  /** The dominance test on the branch of a predecessor recognises back edges. */
  lemma BackEdgeTest(dfg: Dfg, h: Block, p: BlockPredecessor)
    requires Reachable(GraphOf(dfg), h) && Edge(GraphOf(dfg), p.block, h)
    requires dfg.LastInst(p.block) == Some(p.inst)
    ensures DominatesSpec(dfg, AtBlock(h), AtInst(p.inst)) <==> BackEdge(GraphOf(dfg), p.block, h)
  {
    if Reachable(GraphOf(dfg), p.block) {
      PointDomIffDom(dfg, AtBlock(h), AtInst(p.inst));
      DomRefl(GraphOf(dfg), h);
    }
  }

  /** The headers among the last `k` blocks of the post-order have their loops. */
  ghost predicate HeadersFound(dfg: Dfg, ns: seq<Node>, post: seq<Block>, k: nat, loops: seq<LoopData>, tags: LoopMap) {
    && k <= |post| && |tags| == dfg.NumBlocks()
    && (forall i :: 0 <= i < |loops| ==> loops[i].parent.None? && loops[i].level == INVALID)
    && (forall i :: 0 <= i < |loops| ==> IsHeader(GraphOf(dfg), loops[i].header) && Numbered(ns, loops[i].header))
    && (forall i :: 0 <= i < |loops| ==> ns[loops[i].header].rpo < (k + 2) * STRIDE)
    && (forall i, j :: 0 <= i < j < |loops| ==> ns[loops[i].header].rpo < ns[loops[j].header].rpo)
    && (forall j :: |post| - k <= j < |post| && IsHeader(GraphOf(dfg), post[j]) ==> HasLoop(loops, post[j]))
    && (forall i :: 0 <= i < |loops| ==> loops[i].header < |tags| && tags[loops[i].header] == Some(i))
    && (forall b :: 0 <= b < |tags| && tags[b].Some? ==> tags[b].value < |loops| && loops[tags[b].value].header == b)
  }

  lemma HeaderStep(dfg: Dfg, ns: seq<Node>, post: seq<Block>, k: nat, loops: seq<LoopData>, tags: LoopMap)
    requires IsDomTree(dfg, ns, post) && HeadersFound(dfg, ns, post, k, loops, tags) && k < |post|
    ensures var b := post[|post| - 1 - k];
            && b < dfg.NumBlocks()
            && if IsHeader(GraphOf(dfg), b)
               then HeadersFound(dfg, ns, post, k + 1, loops + [LoopData(b, None, INVALID)], tags[b := Some(|loops|)])
               else HeadersFound(dfg, ns, post, k + 1, loops, tags)
  {
    hide *;
    var b := post[|post| - 1 - k];
    PlacedBlock(dfg, ns, post, |post| - 1 - k);
    if IsHeader(GraphOf(dfg), b) {
      HeaderAdded(dfg, ns, post, k, loops, tags, b);
    } else {
      HeaderNotAdded(dfg, ns, post, k, loops, tags);
    }
  }

  lemma HeaderAdded(dfg: Dfg, ns: seq<Node>, post: seq<Block>, k: nat, loops: seq<LoopData>, tags: LoopMap, b: Block)
    requires HeadersFound(dfg, ns, post, k, loops, tags) && k < |post| && b == post[|post| - 1 - k]
    requires b < dfg.NumBlocks() && Numbered(ns, b) && ns[b].rpo == (k + 2) * STRIDE && IsHeader(GraphOf(dfg), b)
    ensures HeadersFound(dfg, ns, post, k + 1, loops + [LoopData(b, None, INVALID)], tags[b := Some(|loops|)])
  {
    hide IsHeader, GraphOf, Numbered;
    var loops' := loops + [LoopData(b, None, INVALID)];
    forall j | |post| - k - 1 <= j < |post| && IsHeader(GraphOf(dfg), post[j]) ensures HasLoop(loops', post[j]) {
      if j == |post| - k - 1 {
        assert loops'[|loops|].header == b;
      } else {
        assert HasLoop(loops, post[j]);
        var i :| 0 <= i < |loops| && loops[i].header == post[j];
        assert loops'[i].header == post[j];
      }
    }
  }

  lemma HeaderNotAdded(dfg: Dfg, ns: seq<Node>, post: seq<Block>, k: nat, loops: seq<LoopData>, tags: LoopMap)
    requires HeadersFound(dfg, ns, post, k, loops, tags) && k < |post| && !IsHeader(GraphOf(dfg), post[|post| - 1 - k])
    ensures HeadersFound(dfg, ns, post, k + 1, loops, tags)
  {
    hide GraphOf, IsHeader, HasLoop;
  }

  lemma PlacedBlock(dfg: Dfg, ns: seq<Node>, post: seq<Block>, j: nat)
    requires IsDomTree(dfg, ns, post) && j < |post|
    ensures post[j] < dfg.NumBlocks() == |ns| && Numbered(ns, post[j]) && ns[post[j]].rpo == (|post| + 1 - j) * STRIDE
  {
  }

  lemma HeadersEnd(dfg: Dfg, ns: seq<Node>, post: seq<Block>, loops: seq<LoopData>, tags: LoopMap)
    requires IsDomTree(dfg, ns, post) && HeadersFound(dfg, ns, post, |post|, loops, tags)
    ensures LoopsInv(GraphOf(dfg), ns, loops, tags, |loops|, |loops|) && LevelsUnset(loops)
  {
    forall h: Block | IsHeader(GraphOf(dfg), h) ensures HasLoop(loops, h) {
      HeaderReachable(GraphOf(dfg), h);
      assert h in post;
      var j :| 0 <= j < |post| && post[j] == h;
    }
  }

  ghost predicate LevelsUnset(loops: seq<LoopData>) {
    forall i :: 0 <= i < |loops| ==> loops[i].level == INVALID
  }

  /** The facts about the tree that the searches use. */
  ghost predicate SearchTree(g: Graph, ns: seq<Node>) {
    TreeOk(g, ns) && PredOrdered(g, ns) && forall x: Block :: Reachable(g, x) ==> Numbered(ns, x)
  }

  lemma TreeForSearch(domtree: DominatorTree, dfg: Dfg)
    requires domtree.Describes(dfg)
    ensures IsDomTree(dfg, domtree.nodes, domtree.postorder) && |domtree.nodes| == dfg.NumBlocks()
    ensures dfg.WellFormed() && SearchTree(GraphOf(dfg), domtree.nodes)
  {
  }

  class LoopAnalysis {
    var loops: seq<LoopData>
    var tags: LoopMap
    var valid: bool

    constructor ()
      ensures loops == [] && tags == [] && !valid
    {
      loops, tags, valid := [], [], false;
    }

    /** Detects the loops of a function, provided that they are nested: otherwise there is no forest to find. */
    method Compute(dfg: Dfg, cfg: ControlFlowGraph, domtree: DominatorTree)
      requires domtree.Describes(dfg) && Exact(dfg, cfg.data) && LoopsNested(GraphOf(dfg))
      modifies this
      ensures valid && IsLoopForest(dfg, domtree.nodes, loops, tags)
    {
      loops := [];
      tags := seq(dfg.NumBlocks(), _ => None);
      FindLoopHeaders(dfg, cfg, domtree);
      DiscoverLoopBlocks(dfg, cfg, domtree);
      AssignLoopLevels(dfg, domtree.nodes);
      valid := true;
    }

    /** One loop for every block with a back edge, in reverse post-order. */
    method FindLoopHeaders(dfg: Dfg, cfg: ControlFlowGraph, domtree: DominatorTree)
      requires domtree.Describes(dfg) && Exact(dfg, cfg.data)
      requires loops == [] && |tags| == dfg.NumBlocks() && forall b :: 0 <= b < |tags| ==> tags[b].None?
      modifies this
      ensures LoopsInv(GraphOf(dfg), domtree.nodes, loops, tags, |loops|, |loops|) && LevelsUnset(loops)
    {
      hide *;
      TreeForSearch(domtree, dfg);
      ghost var ns, post := domtree.nodes, domtree.postorder;
      HeadersBegin(dfg, ns, post, tags);
      var k := 0;
      while k < |domtree.postorder|
        invariant 0 <= k <= |post| && HeadersFound(dfg, ns, post, k, loops, tags)
        invariant |tags| == dfg.NumBlocks()
      {
        var block := domtree.postorder[|domtree.postorder| - 1 - k];
        PostReachable(dfg, ns, post, block);
        HeaderStep(dfg, ns, post, k, loops, tags);
        var header := HasBackEdge(dfg, cfg, domtree, block);
        if header {
          loops, tags := loops + [LoopData(block, None, INVALID)], tags[block := Some(|loops|)];
        }
        k := k + 1;
      }
      HeadersEnd(dfg, ns, post, loops, tags);
    }

    method HasBackEdge(dfg: Dfg, cfg: ControlFlowGraph, domtree: DominatorTree, block: Block) returns (r: bool)
      requires domtree.Describes(dfg) && Exact(dfg, cfg.data)
      requires block < dfg.NumBlocks() && Reachable(GraphOf(dfg), block)
      ensures r <==> IsHeader(GraphOf(dfg), block)
    {
      hide *;
      TreeForSearch(domtree, dfg);
      var preds := cfg.PredIter(block);
      PredsOf(dfg, cfg.data, block, preds);
      var k := 0;
      while k < |preds|
        invariant 0 <= k <= |preds|
        invariant forall j :: 0 <= j < k ==> !BackEdge(GraphOf(dfg), preds[j].block, block)
      {
        BackEdgeTest(dfg, block, preds[k]);
        var back := domtree.Dominates(dfg, AtBlock(block), AtInst(preds[k].inst));
        if back {
          HeaderIf(dfg, block, preds, k);
          return true;
        }
        k := k + 1;
      }
      HeaderOnlyIf(dfg, block, preds);
      r := false;
    }

    /** Bodies, from the innermost headers outwards. */
    method DiscoverLoopBlocks(dfg: Dfg, cfg: ControlFlowGraph, domtree: DominatorTree)
      requires domtree.Describes(dfg) && Exact(dfg, cfg.data) && LoopsNested(GraphOf(dfg))
      requires LoopsInv(GraphOf(dfg), domtree.nodes, loops, tags, |loops|, |loops|) && LevelsUnset(loops)
      modifies this
      ensures LoopsInv(GraphOf(dfg), domtree.nodes, loops, tags, 0, 0) && LevelsUnset(loops)
    {
      hide *;
      var l := |loops|;
      while l > 0
        invariant 0 <= l <= |loops| && LevelsUnset(loops)
        invariant LoopsInv(GraphOf(dfg), domtree.nodes, loops, tags, l, l)
      {
        l := l - 1;
        DiscoverOne(dfg, cfg, domtree, l);
      }
    }

    /** The body of loop `l`: a backward search from its back edges. */
    method DiscoverOne(dfg: Dfg, cfg: ControlFlowGraph, domtree: DominatorTree, l: nat)
      requires domtree.Describes(dfg) && Exact(dfg, cfg.data) && LoopsNested(GraphOf(dfg))
      requires l < |loops| && LoopsInv(GraphOf(dfg), domtree.nodes, loops, tags, l + 1, l + 1) && LevelsUnset(loops)
      modifies this
      ensures |loops| == |old(loops)| && LoopsInv(GraphOf(dfg), domtree.nodes, loops, tags, l, l) && LevelsUnset(loops)
    {
      hide *;
      TreeForSearch(domtree, dfg);
      ghost var g, ns := GraphOf(dfg), domtree.nodes;
      LoopAt(dfg, ns, loops, tags, l + 1, l + 1, l);
      var stack := BackEdgeSources(dfg, cfg, domtree, loops[l].header);
      SearchBegin(g, ns, loops, tags, l, stack);
      while |stack| > 0
        invariant |loops| == |old(loops)| && LevelsUnset(loops)
        invariant LoopsInv(g, ns, loops, tags, l, l + 1) && SearchInv(g, loops, tags, l, stack)
        decreases Unfound(loops, tags), |stack|
      {
        var node: Block := stack[|stack| - 1];
        TopFacts(dfg, ns, loops, tags, l, stack);
        if tags[node].None? {
          var stack' := PushPreds(dfg, cfg, stack, node);
          SearchTag(g, ns, loops, tags, l, stack, stack');
          TagFinds(loops, tags, node, l);
          tags := tags[node := Some(l)];
          stack := stack';
        } else {
          var root, inside := Climb(l, tags[node].value);
          RootFacts(dfg, ns, loops, tags, l, node, root, inside);
          if inside || root == l {
            SearchSkip(g, loops, tags, l, stack);
            stack := stack[..|stack| - 1];
          } else {
            var stack' := PushPreds(dfg, cfg, stack, loops[root].header);
            SearchLink(g, ns, loops, tags, l, root, stack, stack');
            LinkFinds(loops, tags, root, l);
            loops := loops[root := loops[root].(parent := Some(l))];
            stack := stack';
          }
        }
      }
      SearchEnd(g, ns, loops, tags, l);
    }

    /** Walks up the loops around `m` until one whose parent is `l`, or one without parent. */
    method Climb(l: nat, m: nat) returns (root: nat, inside: bool)
      requires m < |loops| && ParentsBefore(loops)
      ensures root < |loops| && Under(loops, m, root)
      ensures if inside then loops[root].parent == Some(l) else loops[root].parent.None?
    {
      root := m;
      while loops[root].parent.Some? && loops[root].parent.value != l
        invariant root < |loops| && Under(loops, m, root)
        decreases root
      {
        UnderStep(loops, m, root);
        root := loops[root].parent.value;
      }
      inside := loops[root].parent.Some?;
    }

    method BackEdgeSources(dfg: Dfg, cfg: ControlFlowGraph, domtree: DominatorTree, h: Block)
            returns (stack: seq<Block>)
      requires domtree.Describes(dfg) && Exact(dfg, cfg.data)
      requires h < dfg.NumBlocks() && Reachable(GraphOf(dfg), h)
      ensures forall s: Block :: s in stack <==> BackEdge(GraphOf(dfg), s, h)
    {
      hide *;
      TreeForSearch(domtree, dfg);
      var preds := cfg.PredIter(h);
      PredsOf(dfg, cfg.data, h, preds);
      stack := [];
      var k := 0;
      while k < |preds|
        invariant 0 <= k <= |preds|
        invariant forall j :: 0 <= j < k ==> (preds[j].block in stack <==> BackEdge(GraphOf(dfg), preds[j].block, h))
        invariant forall s: Block :: s in stack ==> BackEdge(GraphOf(dfg), s, h)
      {
        BackEdgeTest(dfg, h, preds[k]);
        var back := domtree.Dominates(dfg, AtBlock(h), AtInst(preds[k].inst));
        if back {
          stack := stack + [preds[k].block];
        }
        k := k + 1;
      }
      SourcesListed(dfg, h, preds, stack);
    }

    /** Replaces the top of the stack by the predecessors of `block`. */
    method PushPreds(dfg: Dfg, cfg: ControlFlowGraph, stack: seq<Block>, block: Block) returns (stack': seq<Block>)
      requires dfg.WellFormed() && Exact(dfg, cfg.data) && block < dfg.NumBlocks() && |stack| > 0
      ensures PredsPushed(GraphOf(dfg), stack, block, stack')
    {
      hide *;
      var preds := cfg.PredIter(block);
      PredsOf(dfg, cfg.data, block, preds);
      stack' := stack[..|stack| - 1];
      var k := 0;
      while k < |preds|
        invariant 0 <= k <= |preds|
        invariant forall x: Block ::
            x in stack' <==> x in stack[..|stack| - 1] || exists j :: 0 <= j < k && preds[j].block == x
      {
        stack' := stack' + [preds[k].block];
        k := k + 1;
      }
      PushedAll(dfg, stack, block, preds, stack');
    }

    /** Levels from the outside in, with a stack of loops whose parents have no level yet. */
    method AssignLoopLevels(dfg: Dfg, ghost ns: seq<Node>)
      requires LoopsInv(GraphOf(dfg), ns, loops, tags, 0, 0) && LevelsUnset(loops)
      modifies this`loops
      ensures IsLoopForest(dfg, ns, loops, tags)
    {
      hide *;
      ghost var loops0 := loops;
      LevelsBegin(dfg, ns, loops, tags);
      var l := 0;
      while l < |loops|
        invariant 0 <= l <= |loops| && SameParents(loops0, loops) && ParentsBefore(loops)
        invariant LevelsSet(loops, l) && LevelsOk(loops)
      {
        ghost var was := loops;
        if loops[l].level == INVALID {
          LevelUp(l);
          SameParentsTrans(loops0, was, loops);
          LevelsKept(was, loops, l);
        }
        LevelDone(loops, l);
        l := l + 1;
      }
      ForestDone(dfg, ns, loops0, loops, tags);
    }

    method LevelUp(l: nat)
      requires l < |loops| && loops[l].level == INVALID && ParentsBefore(loops) && LevelsOk(loops)
      modifies this`loops
      ensures SameParents(old(loops), loops) && ParentsBefore(loops) && LevelsOk(loops)
      ensures loops[l].level != INVALID
      ensures KeepsLevels(old(loops), loops)
    {
      hide LevelsOk, KeepsLevels, Unleveled;
      ghost var before := loops;
      KeepsRefl(loops);
      var stack: seq<nat> := [l];
      while |stack| > 0
        invariant SameParents(before, loops) && ParentsBefore(loops) && LevelsOk(loops)
        invariant LevelsPending(loops, l, stack) && KeepsLevels(before, loops)
        decreases Unleveled(loops), if |stack| > 0 then stack[|stack| - 1] else 0
      {
        var top := stack[|stack| - 1];
        var parent := loops[top].parent;
        if parent.Some? && loops[parent.value].level == INVALID {
          stack := stack + [parent.value];
        } else {
          var level := if parent.Some? then Inc(loops[parent.value].level) else Inc(0);
          LevelOneMore(loops, top, level);
          KeepsOneMore(before, loops, top, level);
          loops := loops[top := loops[top].(level := level)];
          stack := stack[..|stack| - 1];
        }
      }
    }

    /** Is `child` the loop `parent`, or one inside it? */
    method IsChildLoop(child: nat, parent: nat) returns (r: bool)
      requires child < |loops| && ParentsBefore(loops)
      ensures r <==> Under(loops, child, parent)
    {
      var finger: Option<nat> := Some(child);
      while finger.Some?
        invariant finger.Some? ==> finger.value < |loops|
        invariant Under(loops, child, parent) <==> finger.Some? && Under(loops, finger.value, parent)
        decreases if finger.Some? then finger.value + 1 else 0
      {
        if finger.value == parent {
          return true;
        }
        finger := loops[finger.value].parent;
      }
      r := false;
    }

    /** Is `block` in loop `lp`?  It is exactly when it lies in the natural loop of the header. */
    method IsInLoop(ghost dfg: Dfg, ghost ns: seq<Node>, block: Block, lp: nat) returns (r: bool)
      requires IsLoopForest(dfg, ns, loops, tags) && block < |tags| && lp < |loops|
      ensures r <==> InBody(GraphOf(dfg), loops[lp].header, block)
    {
      assert InLoop(loops, tags, block, lp) <==> InBody(GraphOf(dfg), loops[lp].header, block);
      if tags[block].None? {
        return false;
      }
      r := IsChildLoop(tags[block].value, lp);
    }
  }

  lemma HeadersBegin(dfg: Dfg, ns: seq<Node>, post: seq<Block>, tags: LoopMap)
    requires |tags| == dfg.NumBlocks() && forall b :: 0 <= b < |tags| ==> tags[b].None?
    ensures HeadersFound(dfg, ns, post, 0, [], tags)
  {
  }

  lemma PostReachable(dfg: Dfg, ns: seq<Node>, post: seq<Block>, b: Block)
    requires IsDomTree(dfg, ns, post) && b in post
    ensures Reachable(GraphOf(dfg), b) && b < dfg.NumBlocks()
  {
    ReachableInRange(GraphOf(dfg), b);
  }

  lemma PredsOf(dfg: Dfg, data: CfgData, b: Block, preds: seq<BlockPredecessor>)
    requires dfg.WellFormed() && Exact(dfg, data) && b < dfg.NumBlocks() && ListsEntries(Preds(data, b), preds)
    ensures ListsPreds(dfg, b, preds)
    ensures forall k :: 0 <= k < |preds| ==>
              && Edge(GraphOf(dfg), preds[k].block, b) && dfg.LastInst(preds[k].block) == Some(preds[k].inst)
              && dfg.HasPoint(AtInst(preds[k].inst))
    ensures dfg.HasPoint(AtBlock(b))
  {
    hide Exact, ListsEntries, GraphOf;
    EntriesArePreds(dfg, data, b, preds);
    forall k | 0 <= k < |preds| ensures dfg.HasPoint(AtInst(preds[k].inst)) {
      LastIsPoint(dfg, preds[k].block, preds[k].inst);
    }
  }

  lemma LastIsPoint(dfg: Dfg, b: Block, i: Inst)
    requires dfg.LastInst(b) == Some(i)
    ensures dfg.HasPoint(AtInst(i))
  {
  }

  lemma HeaderIf(dfg: Dfg, b: Block, preds: seq<BlockPredecessor>, k: nat)
    requires k < |preds| && BackEdge(GraphOf(dfg), preds[k].block, b)
    ensures IsHeader(GraphOf(dfg), b)
  {
  }

  lemma HeaderOnlyIf(dfg: Dfg, b: Block, preds: seq<BlockPredecessor>)
    requires ListsPreds(dfg, b, preds) && forall j :: 0 <= j < |preds| ==> !BackEdge(GraphOf(dfg), preds[j].block, b)
    ensures !IsHeader(GraphOf(dfg), b)
  {
  }

  lemma SourcesListed(dfg: Dfg, h: Block, preds: seq<BlockPredecessor>, stack: seq<Block>)
    requires ListsPreds(dfg, h, preds)
    requires forall j :: 0 <= j < |preds| ==> (preds[j].block in stack <==> BackEdge(GraphOf(dfg), preds[j].block, h))
    requires forall s: Block :: s in stack ==> BackEdge(GraphOf(dfg), s, h)
    ensures forall s: Block :: s in stack <==> BackEdge(GraphOf(dfg), s, h)
  {
  }

  lemma PushedAll(dfg: Dfg, stack: seq<Block>, b: Block, preds: seq<BlockPredecessor>, stack': seq<Block>)
    requires |stack| > 0 && ListsPreds(dfg, b, preds)
    requires forall x: Block ::
        x in stack' <==> x in stack[..|stack| - 1] || exists j :: 0 <= j < |preds| && preds[j].block == x
    ensures PredsPushed(GraphOf(dfg), stack, b, stack')
  {
  }

  lemma LoopAt(dfg: Dfg, ns: seq<Node>, loops: seq<LoopData>, tags: LoopMap, low: nat, done: nat, l: nat)
    requires LoopsInv(GraphOf(dfg), ns, loops, tags, low, done) && l < |loops|
    ensures loops[l].header < dfg.NumBlocks() && Reachable(GraphOf(dfg), loops[l].header) && ParentsBefore(loops)
  {
    HeaderReachable(GraphOf(dfg), loops[l].header);
  }

  lemma TopFacts(dfg: Dfg, ns: seq<Node>, loops: seq<LoopData>, tags: LoopMap, l: nat, stack: seq<Block>)
    requires LoopsInv(GraphOf(dfg), ns, loops, tags, l, l + 1)
    requires SearchInv(GraphOf(dfg), loops, tags, l, stack) && |stack| > 0
    ensures stack[|stack| - 1] < |tags| == dfg.NumBlocks() && ParentsBefore(loops)
    ensures tags[stack[|stack| - 1]].Some? ==> tags[stack[|stack| - 1]].value < |loops|
    ensures forall r: nat :: r < |loops| ==> loops[r].header < dfg.NumBlocks()
  {
    assert stack[|stack| - 1] in stack;
    BodyDominated(GraphOf(dfg), loops[l].header, stack[|stack| - 1]);
  }

  lemma {:induction false} RootFacts(dfg: Dfg, ns: seq<Node>, loops: seq<LoopData>, tags: LoopMap, l: nat, b: Block,
          root: nat, inside: bool)
    requires b < |tags| && tags[b].Some? && root < |loops| && ParentsBefore(loops) && Under(loops, tags[b].value, root)
    requires if inside then loops[root].parent == Some(l) else loops[root].parent.None?
    ensures InLoop(loops, tags, b, root)
    ensures inside || root == l ==> InLoop(loops, tags, b, l)
  {
    if inside {
      UnderTrans(loops, tags[b].value, root, l);
    }
  }

  lemma {:induction false} UnderStep(loops: seq<LoopData>, m: nat, r: nat)
    requires Under(loops, m, r) && r < |loops| && loops[r].parent.Some? && loops[r].parent.value < r
    ensures Under(loops, m, loops[r].parent.value)
  {
    UnderTrans(loops, m, r, loops[r].parent.value);
  }

  /** Blocks without a loop and loops without a parent: what a search can still find. */
  ghost function Unfound(loops: seq<LoopData>, tags: LoopMap): nat {
    Roots(loops) + Untagged(tags)
  }

  ghost function Roots(loops: seq<LoopData>): nat {
    if |loops| == 0 then 0 else (if Last(loops).parent.None? then 1 else 0) + Roots(Front(loops))
  }

  ghost function Untagged(tags: LoopMap): nat {
    if |tags| == 0 then 0 else (if Last(tags).None? then 1 else 0) + Untagged(Front(tags))
  }

  lemma {:induction false} TagFinds(loops: seq<LoopData>, tags: LoopMap, b: Block, l: nat)
    requires b < |tags| && tags[b].None?
    ensures Unfound(loops, tags[b := Some(l)]) < Unfound(loops, tags)
    decreases |tags|
  {
    var tags' := tags[b := Some(l)];
    if b < |tags| - 1 {
      TagFinds(loops, Front(tags), b, l);
      assert Front(tags') == Front(tags)[b := Some(l)];
    } else {
      assert Front(tags') == Front(tags);
    }
  }

  lemma {:induction false} LinkFinds(loops: seq<LoopData>, tags: LoopMap, r: nat, l: nat)
    requires r < |loops| && loops[r].parent.None?
    ensures Unfound(loops[r := loops[r].(parent := Some(l))], tags) < Unfound(loops, tags)
    ensures LevelsUnset(loops) ==> LevelsUnset(loops[r := loops[r].(parent := Some(l))])
    decreases |loops|
  {
    var loops' := loops[r := loops[r].(parent := Some(l))];
    if r < |loops| - 1 {
      LinkFinds(Front(loops), tags, r, l);
      assert Front(loops') == Front(loops)[r := loops[r].(parent := Some(l))];
    } else {
      assert Front(loops') == Front(loops);
    }
  }

  // Assigning levels

  ghost predicate SameParents(loops: seq<LoopData>, loops': seq<LoopData>) {
    |loops'| == |loops| && forall i ::
        0 <= i < |loops| ==> loops'[i].parent == loops[i].parent && loops'[i].header == loops[i].header
  }

  /** Levels that have been given are right. */
  ghost predicate LevelsOk(loops: seq<LoopData>) {
    forall i :: 0 <= i < |loops| && loops[i].level != INVALID ==> loops[i].level == LevelFor(Depth(loops, i))
  }

  ghost function Unleveled(loops: seq<LoopData>): nat {
    if |loops| == 0 then 0 else (if Last(loops).level == INVALID then 1 else 0) + Unleveled(Front(loops))
  }

  lemma {:induction false} LevelCounts(loops: seq<LoopData>, l: nat, level: nat)
    requires l < |loops| && loops[l].level == INVALID && level != INVALID
    ensures Unleveled(loops[l := loops[l].(level := level)]) < Unleveled(loops)
    decreases |loops|
  {
    var loops' := loops[l := loops[l].(level := level)];
    if l < |loops| - 1 {
      LevelCounts(Front(loops), l, level);
      assert Front(loops') == Front(loops)[l := loops[l].(level := level)];
    } else {
      assert Front(loops') == Front(loops);
    }
  }

  lemma LevelOneMore(loops: seq<LoopData>, l: nat, level: nat)
    requires l < |loops| && loops[l].level == INVALID && ParentsBefore(loops) && LevelsOk(loops)
    requires loops[l].parent.Some? ==> loops[loops[l].parent.value].level != INVALID
    requires level == if loops[l].parent.Some? then Inc(loops[loops[l].parent.value].level) else Inc(0)
    ensures level != INVALID && LevelsOk(loops[l := loops[l].(level := level)])
    ensures Unleveled(loops[l := loops[l].(level := level)]) < Unleveled(loops)
  {
    var loops' := loops[l := loops[l].(level := level)];
    forall i | 0 <= i < |loops| ensures Depth(loops', i) == Depth(loops, i) {
      DepthFrame(loops, loops', i);
    }
    assert level == LevelFor(Depth(loops, l));
    LevelCounts(loops, l, level);
  }

  lemma LevelsBegin(dfg: Dfg, ns: seq<Node>, loops: seq<LoopData>, tags: LoopMap)
    requires LoopsInv(GraphOf(dfg), ns, loops, tags, 0, 0) && LevelsUnset(loops)
    ensures SameParents(loops, loops) && ParentsBefore(loops) && LevelsSet(loops, 0) && LevelsOk(loops)
  {
  }

  lemma SameParentsTrans(a: seq<LoopData>, b: seq<LoopData>, c: seq<LoopData>)
    requires SameParents(a, b) && SameParents(b, c)
    ensures SameParents(a, c) && |c| == |b|
  {
  }

  /** Levels once given stay. */
  ghost predicate KeepsLevels(loops: seq<LoopData>, loops': seq<LoopData>) {
    |loops'| == |loops| && forall i ::
        0 <= i < |loops| && loops[i].level != INVALID ==> loops'[i].level == loops[i].level
  }

  lemma KeepsRefl(loops: seq<LoopData>)
    ensures KeepsLevels(loops, loops)
  {
  }

  lemma KeepsOneMore(before: seq<LoopData>, loops: seq<LoopData>, l: nat, level: nat)
    requires KeepsLevels(before, loops) && l < |loops| && loops[l].level == INVALID
    ensures KeepsLevels(before, loops[l := loops[l].(level := level)])
  {
  }

  /** The loops on the stack wait for their level, `l` at the bottom and parents above their children. */
  ghost predicate LevelsPending(loops: seq<LoopData>, l: nat, stack: seq<nat>)
    requires l < |loops|
  {
    && (forall k :: 0 <= k < |stack| ==> stack[k] < |loops| && loops[stack[k]].level == INVALID)
    && (forall j, k :: 0 <= j < k < |stack| ==> stack[k] < stack[j])
    && (if |stack| > 0 then stack[0] == l else loops[l].level != INVALID)
  }

  lemma LevelsKept(loops: seq<LoopData>, loops': seq<LoopData>, upTo: nat)
    requires SameParents(loops, loops') && LevelsSet(loops, upTo)
    requires KeepsLevels(loops, loops')
    ensures LevelsSet(loops', upTo)
  {
    forall i | 0 <= i < upTo && i < |loops| ensures loops'[i].level == LevelFor(Depth(loops', i)) {
      DepthFrame(loops, loops', i);
    }
  }

  lemma LevelDone(loops: seq<LoopData>, l: nat)
    requires l < |loops| && LevelsSet(loops, l) && LevelsOk(loops) && loops[l].level != INVALID
    ensures LevelsSet(loops, l + 1)
  {
  }

  lemma ForestDone(dfg: Dfg, ns: seq<Node>, loops0: seq<LoopData>, loops: seq<LoopData>, tags: LoopMap)
    requires LoopsInv(GraphOf(dfg), ns, loops0, tags, 0, 0) && SameParents(loops0, loops) && LevelsSet(loops, |loops|)
    ensures IsLoopForest(dfg, ns, loops, tags)
  {
    hide IsHeader, InBody, Numbered, Under, LevelsSet, GraphOf, BodiesFrom;
    forall h: Block | IsHeader(GraphOf(dfg), h) ensures HasLoop(loops, h) {
      assert HasLoop(loops0, h);
      var i :| 0 <= i < |loops0| && loops0[i].header == h;
      assert loops[i].header == h;
    }
    SameBodies(GraphOf(dfg), loops0, loops, tags);
  }

  lemma SameBodies(g: Graph, loops0: seq<LoopData>, loops: seq<LoopData>, tags: LoopMap)
    requires BodiesFrom(g, loops0, tags, 0) && SameParents(loops0, loops)
    ensures BodiesFrom(g, loops, tags, 0)
  {
    hide InBody;
    forall c: nat, l: nat ensures Under(loops, c, l) == Under(loops0, c, l) {
      UnderFrame(loops0, loops, c, l);
    }
    forall j: nat, b: Block | j < |loops| ensures InLoop(loops, tags, b, j) <==> InBody(g, loops[j].header, b) {
      assert InLoop(loops0, tags, b, j) <==> InBody(g, loops0[j].header, b);
    }
  }

  lemma {:induction false} UnderFrame(loops: seq<LoopData>, loops': seq<LoopData>, c: nat, l: nat)
    requires SameParents(loops, loops')
    ensures Under(loops', c, l) == Under(loops, c, l)
    decreases c
  {
    if c < |loops| && loops[c].parent.Some? && loops[c].parent.value < c {
      UnderFrame(loops, loops', loops[c].parent.value, l);
    }
  }
}
