/** Natural loops: headers, bodies, and how bodies nest. */
module LoopTheory {
  import opened Graphs

  /** An edge whose head dominates its tail. */
  ghost predicate BackEdge(g: Graph, s: nat, h: nat) {
    Edge(g, s, h) && Reachable(g, s) && Dom(g, h, s)
  }

  ghost predicate IsHeader(g: Graph, h: nat) {
    exists s: nat :: BackEdge(g, s, h)
  }

  /** `q` leads from `b` to the source of a back edge to `h` without meeting `h`. */
  ghost predicate LoopPath(g: Graph, h: nat, q: seq<nat>, b: nat) {
    IsPath(g, q) && q[0] == b && BackEdge(g, Last(q), h) && h !in q
  }

  /** The natural loop of `h`. */
  ghost predicate InBody(g: Graph, h: nat, b: nat) {
    b == h || exists q :: LoopPath(g, h, q, b)
  }

  /** No unreachable block branches to a reachable one; so it is when every block is reachable. */
  ghost predicate PredsReachable(g: Graph) {
    forall p: nat, b: nat {:trigger Edge(g, p, b)} :: Edge(g, p, b) && Reachable(g, b) ==> Reachable(g, p)
  }

  lemma {:induction false} BackReachable(g: Graph, q: seq<nat>)
    requires PredsReachable(g) && IsPath(g, q) && Reachable(g, Last(q))
    ensures Reachable(g, q[0])
    decreases |q|
  {
    if |q| > 1 {
      BackReachable(g, Front(q));
    }
  }

  lemma HeaderReachable(g: Graph, h: nat)
    requires IsHeader(g, h)
    ensures Reachable(g, h) && h < |g.succs|
  {
    var s: nat :| BackEdge(g, s, h);
    ReachableStep(g, s, h);
  }

  /** A loop body is dominated by its header. */
  lemma BodyDominated(g: Graph, h: nat, b: nat)
    requires IsHeader(g, h) && InBody(g, h, b)
    ensures Dom(g, h, b) && b < |g.succs|
  {
    HeaderReachable(g, h);
    DomRefl(g, h);
    if b != h {
      var q :| LoopPath(g, h, q, b);
      if |q| > 1 {
        PathEdge(g, q, 0);
      }
      DomBeforeSuffix(g, h, b, Last(q), q);
    }
  }

  /** All of it can be reached, unless an unreachable block branches into it. */
  lemma BodyReachable(g: Graph, h: nat, b: nat)
    requires PredsReachable(g) && IsHeader(g, h) && InBody(g, h, b)
    ensures Reachable(g, b)
  {
    HeaderReachable(g, h);
    if b != h {
      var q :| LoopPath(g, h, q, b);
      BackReachable(g, q);
    }
  }

  /** A loop can only be entered through its header. */
  lemma BodyPred(g: Graph, h: nat, p: nat, b: nat)
    requires InBody(g, h, b) && b != h && Edge(g, p, b)
    ensures InBody(g, h, p)
  {
    if p != h {
      var q :| LoopPath(g, h, q, b);
      PathPrepend(g, p, q);
      assert LoopPath(g, h, [p] + q, p);
    }
  }

  lemma BackEdgeInBody(g: Graph, h: nat, s: nat)
    requires BackEdge(g, s, h)
    ensures InBody(g, h, s)
  {
    if s != h {
      assert LoopPath(g, h, [s], s);
    }
  }

  /** A block of a loop has a successor in the loop. */
  lemma BodyContinues(g: Graph, h: nat, b: nat) returns (c: nat)
    requires IsHeader(g, h) && InBody(g, h, b)
    ensures Edge(g, b, c) && InBody(g, h, c)
  {
    if b != h {
      var q :| LoopPath(g, h, q, b);
      c := LoopPathNext(g, h, q, b);
    } else {
      var s: nat :| BackEdge(g, s, h);
      if s == h {
        c := h;
      } else {
        var p: seq<nat> :| PathTo(g, g.entry, p, s);
        var r := LastVisit(g, p, h);
        PathEdge(g, r, 0);
        PathSuffix(g, r, 1);
        c := r[1];
        assert LoopPath(g, h, r[1..], c);
      }
    }
  }

  lemma LoopPathNext(g: Graph, h: nat, q: seq<nat>, b: nat) returns (c: nat)
    requires LoopPath(g, h, q, b)
    ensures Edge(g, b, c) && InBody(g, h, c)
  {
    if |q| == 1 {
      c := h;
    } else {
      PathEdge(g, q, 0);
      PathSuffix(g, q, 1);
      c := q[1];
      assert LoopPath(g, h, q[1..], c);
    }
  }

  /** An edge from one loop into another, neither block being in both, is critical: its source has a
      successor in its own loop, and its target is a header that also has a back edge. */
  lemma EntersBeside(g: Graph, h: nat, k: nat, b: nat, s: nat) returns (c: nat, q: nat)
    requires IsHeader(g, h) && IsHeader(g, k) && Edge(g, b, s)
    requires InBody(g, h, b) && !InBody(g, h, s) && InBody(g, k, s) && !InBody(g, k, b)
    ensures Edge(g, b, c) && c != s && Edge(g, q, s) && q != b
  {
    c := BodyContinues(g, h, b);
    if s != k {
      BodyPred(g, k, b, s);
    }
    q :| BackEdge(g, q, k);
    BackEdgeInBody(g, k, q);
  }

  /** A path from the inner header `k` to `b` that avoids the outer header `h`. */
  lemma PathAvoiding(g: Graph, h: nat, k: nat, b: nat) returns (r: seq<nat>)
    requires Reachable(g, b) && Dom(g, k, b) && StrictDom(g, h, k)
    ensures IsPath(g, r) && r[0] == k && Last(r) == b && h !in r
  {
    var p :| PathTo(g, g.entry, p, b);
    r := LastVisit(g, p, k);
    if h in r {
      var t := LastVisit(g, r, h);
      SuffixAvoids(t, r, k);
      DomBeforeSuffix(g, k, h, b, t);
      DomReachable(g, k, b);
      DomAntisym(g, h, k);
    }
  }

  /** Of two loops that share a reachable block, one holds the header of the other. */
  lemma SharedBlockNests(g: Graph, h: nat, k: nat, b: nat)
    requires IsHeader(g, h) && IsHeader(g, k) && InBody(g, h, b) && InBody(g, k, b) && Reachable(g, b)
    ensures InBody(g, h, k) || InBody(g, k, h)
  {
    BodyDominated(g, h, b);
    BodyDominated(g, k, b);
    DomChain(g, h, k, b);
    if h != k {
      if Dom(g, h, k) {
        InnerHeaderInBody(g, h, k, b);
      } else {
        InnerHeaderInBody(g, k, h, b);
      }
    }
  }

  /** The inner header is in the outer loop. */
  lemma InnerHeaderInBody(g: Graph, h: nat, k: nat, b: nat)
    requires IsHeader(g, h) && IsHeader(g, k) && Reachable(g, b)
    requires InBody(g, h, b) && InBody(g, k, b) && StrictDom(g, h, k)
    ensures InBody(g, h, k)
  {
    BodyDominated(g, k, b);
    HeaderReachable(g, k);
    if b == h {
      DomAntisym(g, h, k);
    }
    var q :| LoopPath(g, h, q, b);
    var r := PathAvoiding(g, h, k, b);
    PathJoin(g, r, q);
    assert LoopPath(g, h, r + q[1..], k);
  }

  lemma {:induction false} JoinAvoiding(g: Graph, h: nat, q: seq<nat>, k: nat, rest: seq<nat>)
    requires IsPath(g, q) && h !in q && Edge(g, Last(q), k) && LoopPath(g, h, rest, k)
    ensures LoopPath(g, h, (q + [k]) + rest[1..], q[0])
  {
    PathExtend(g, q, k);
    PathJoin(g, q + [k], rest);
  }

  /** A loop that holds the header of another holds all of it. */
  lemma LoopsNest(g: Graph, h: nat, k: nat, c: nat)
    requires IsHeader(g, h) && IsHeader(g, k) && InBody(g, h, k) && InBody(g, k, c)
    ensures InBody(g, h, c)
  {
    if c != k && h != k {
      var rest :| LoopPath(g, h, rest, k);
      var q :| LoopPath(g, k, q, c);
      BodyAvoids(g, h, k, q);
      JoinAvoiding(g, h, q, k, rest);
    }
  }

  /** The paths inside the inner loop do not meet the outer header. */
  lemma BodyAvoids(g: Graph, h: nat, k: nat, q: seq<nat>)
    requires IsHeader(g, h) && IsHeader(g, k) && InBody(g, h, k) && h != k
    requires |q| > 0 && LoopPath(g, k, q, q[0])
    ensures h !in q
  {
    if h in q {
      var i :| 0 <= i < |q| && q[i] == h;
      PathSuffix(g, q, i);
      assert LoopPath(g, k, q[i..], h);
      HeaderReachable(g, h);
      HeaderReachable(g, k);
      BodyDominated(g, k, h);
      BodyDominated(g, h, k);
      DomAntisym(g, h, k);
    }
  }

  /** Of two loops that share a block, reachable or not, one holds the header of the other. */
  ghost predicate LoopsNested(g: Graph) {
    forall h: nat, k: nat, b: nat {:trigger InBody(g, h, b), InBody(g, k, b)} ::
      IsHeader(g, h) && IsHeader(g, k) && InBody(g, h, b) && InBody(g, k, b) ==> InBody(g, h, k) || InBody(g, k, h)
  }

  /** So it is when no unreachable block branches to a reachable one. */
  lemma ReachableLoopsNest(g: Graph)
    requires PredsReachable(g)
    ensures LoopsNested(g)
  {
    forall h: nat, k: nat, b: nat | IsHeader(g, h) && IsHeader(g, k) && InBody(g, h, b) && InBody(g, k, b)
      ensures InBody(g, h, k) || InBody(g, k, h)
    {
      BodyReachable(g, h, b);
      SharedBlockNests(g, h, k, b);
    }
  }

  /** Then any two loop bodies are nested or disjoint. */
  lemma NestedOrDisjoint(g: Graph, h: nat, k: nat)
    requires LoopsNested(g) && IsHeader(g, h) && IsHeader(g, k)
    ensures (forall b: nat :: !(InBody(g, h, b) && InBody(g, k, b)))
            || (forall b: nat :: InBody(g, k, b) ==> InBody(g, h, b))
            || (forall b: nat :: InBody(g, h, b) ==> InBody(g, k, b))
  {
    if b: nat :| InBody(g, h, b) && InBody(g, k, b) {
      if InBody(g, h, k) {
        forall c: nat | InBody(g, k, c) ensures InBody(g, h, c) {
          LoopsNest(g, h, k, c);
        }
      } else {
        forall c: nat | InBody(g, h, c) ensures InBody(g, k, c) {
          LoopsNest(g, k, h, c);
        }
      }
    }
  }
}
