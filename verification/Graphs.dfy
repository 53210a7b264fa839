/** Directed graphs, paths, and dominance defined by "every path from the entry". */
module Graphs {

  datatype Graph = Graph(entry: nat, succs: seq<seq<nat>>)

  ghost predicate WellFormed(g: Graph) {
    && g.entry < |g.succs|
    && forall u: nat, v: nat :: u < |g.succs| && v in g.succs[u] ==> v < |g.succs|
  }

  predicate Edge(g: Graph, u: nat, v: nat) {
    u < |g.succs| && v < |g.succs| && v in g.succs[u]
  }

  function Last<T>(p: seq<T>): T
    requires |p| > 0
  {
    p[|p| - 1]
  }

  function Front<T>(p: seq<T>): seq<T>
    requires |p| > 0
  {
    p[..|p| - 1]
  }

  ghost predicate IsPath(g: Graph, p: seq<nat>) {
    && |p| > 0
    && Last(p) < |g.succs|
    && (|p| > 1 ==> Edge(g, Last(Front(p)), Last(p)) && IsPath(g, Front(p)))
  }

  ghost predicate PathTo(g: Graph, a: nat, p: seq<nat>, b: nat) {
    IsPath(g, p) && p[0] == a && Last(p) == b
  }

  ghost predicate Reachable(g: Graph, b: nat) {
    exists p :: PathTo(g, g.entry, p, b)
  }

  /** `a` dominates `b`: every path from the entry to `b` goes through `a`. */
  ghost predicate Dom(g: Graph, a: nat, b: nat) {
    forall p :: PathTo(g, g.entry, p, b) ==> a in p
  }

  ghost predicate StrictDom(g: Graph, a: nat, b: nat) {
    a != b && Dom(g, a, b)
  }

  /** `d` is the closest strict dominator of `b`. */
  ghost predicate ImmediateDom(g: Graph, d: nat, b: nat) {
    StrictDom(g, d, b) && forall c :: StrictDom(g, c, b) ==> Dom(g, c, d)
  }

  // Paths

  lemma {:induction false} PathExtend(g: Graph, p: seq<nat>, v: nat)
    requires IsPath(g, p) && Edge(g, Last(p), v)
    ensures IsPath(g, p + [v])
    ensures (p + [v])[0] == p[0] && Last(p + [v]) == v
  {
    assert Front(p + [v]) == p;
  }

  lemma {:induction false} PathPrefix(g: Graph, p: seq<nat>, k: nat)
    requires IsPath(g, p) && 0 < k <= |p|
    ensures IsPath(g, p[..k]) && p[..k][0] == p[0] && Last(p[..k]) == p[k - 1]
    decreases |p|
  {
    if k == |p| {
      assert p[..k] == p;
    } else {
      PathPrefix(g, Front(p), k);
      assert Front(p)[..k] == p[..k];
    }
  }

  lemma {:induction false} PathSuffix(g: Graph, p: seq<nat>, k: nat)
    requires IsPath(g, p) && k < |p|
    ensures IsPath(g, p[k..]) && p[k..][0] == p[k] && Last(p[k..]) == Last(p)
    decreases |p|
  {
    if k < |p| - 1 {
      PathSuffix(g, Front(p), k);
      assert Front(p[k..]) == Front(p)[k..];
    }
  }

  lemma {:induction false} PathJoin(g: Graph, p: seq<nat>, q: seq<nat>)
    requires IsPath(g, p) && IsPath(g, q) && Last(p) == q[0]
    ensures IsPath(g, p + q[1..])
    ensures (p + q[1..])[0] == p[0] && Last(p + q[1..]) == Last(q)
    decreases |q|
  {
    if |q| == 1 {
      assert p + q[1..] == p;
    } else {
      PathJoin(g, p, Front(q));
      assert Front(q)[1..] == Front(q[1..]);
      assert Front(p + q[1..]) == p + Front(q)[1..];
      assert Last(p + Front(q)[1..]) == Last(Front(q));
    }
  }

  lemma {:induction false} PathEdge(g: Graph, p: seq<nat>, i: nat)
    requires IsPath(g, p) && i + 1 < |p|
    ensures Edge(g, p[i], p[i + 1])
    decreases |p|
  {
    if i + 2 < |p| {
      PathEdge(g, Front(p), i);
    }
  }

  lemma {:induction false} PathVertex(g: Graph, p: seq<nat>, i: nat)
    requires IsPath(g, p) && i < |p|
    ensures p[i] < |g.succs|
    decreases |p|
  {
    if i < |p| - 1 {
      PathVertex(g, Front(p), i);
    }
  }

  /** An edge in front of a path. */
  lemma {:induction false} PathPrepend(g: Graph, u: nat, p: seq<nat>)
    requires IsPath(g, p) && Edge(g, u, p[0])
    ensures IsPath(g, [u] + p)
    ensures ([u] + p)[0] == u && Last([u] + p) == Last(p)
  {
    assert Front([u, p[0]]) == [u];
    assert IsPath(g, [u]);
    assert IsPath(g, [u, p[0]]);
    PathJoin(g, [u, p[0]], p);
    assert [u, p[0]] + p[1..] == [u] + p;
  }

  lemma EntryReachable(g: Graph)
    requires g.entry < |g.succs|
    ensures Reachable(g, g.entry)
  {
    assert PathTo(g, g.entry, [g.entry], g.entry);
  }

  lemma ReachableInRange(g: Graph, b: nat)
    requires Reachable(g, b)
    ensures b < |g.succs|
  {
    var p :| PathTo(g, g.entry, p, b);
  }

  lemma ReachableStep(g: Graph, u: nat, v: nat)
    requires Reachable(g, u) && Edge(g, u, v)
    ensures Reachable(g, v)
  {
    var p :| PathTo(g, g.entry, p, u);
    PathExtend(g, p, v);
    assert PathTo(g, g.entry, p + [v], v);
  }

  // Dominance

  lemma DomRefl(g: Graph, a: nat)
    ensures Dom(g, a, a)
  {
    forall p | PathTo(g, g.entry, p, a) ensures a in p {
      assert p[|p| - 1] == a;
    }
  }

  lemma DomReachable(g: Graph, a: nat, b: nat)
    requires Reachable(g, b) && Dom(g, a, b)
    ensures Reachable(g, a) && a < |g.succs|
  {
    var p :| PathTo(g, g.entry, p, b);
    var i :| 0 <= i < |p| && p[i] == a;
    PathPrefix(g, p, i + 1);
    assert PathTo(g, g.entry, p[..i + 1], a);
  }

  lemma DomTrans(g: Graph, a: nat, b: nat, c: nat)
    requires Dom(g, a, b) && Dom(g, b, c)
    ensures Dom(g, a, c)
  {
    forall p | PathTo(g, g.entry, p, c) ensures a in p {
      var i :| 0 <= i < |p| && p[i] == b;
      PathPrefix(g, p, i + 1);
      assert PathTo(g, g.entry, p[..i + 1], b);
      assert a in p[..i + 1];
    }
  }

  /** A strict dominator of `b` dominates every predecessor of `b`. */
  lemma DomPred(g: Graph, a: nat, f: nat, b: nat)
    requires StrictDom(g, a, b) && Edge(g, f, b)
    ensures Dom(g, a, f)
  {
    forall p | PathTo(g, g.entry, p, f) ensures a in p {
      PathExtend(g, p, b);
      assert PathTo(g, g.entry, p + [b], b);
      assert a in p + [b];
    }
  }

  /** What dominates every reachable predecessor of `b` dominates `b`. */
  lemma DomFromPreds(g: Graph, d: nat, b: nat)
    requires b != g.entry
    requires forall f: nat :: Edge(g, f, b) && Reachable(g, f) ==> Dom(g, d, f)
    ensures Dom(g, d, b)
  {
    forall p: seq<nat> | PathTo(g, g.entry, p, b) ensures d in p {
      assert |p| > 1;
      assert PathTo(g, g.entry, Front(p), Last(Front(p)));
      assert d in Front(p);
    }
  }

  lemma EntryDoms(g: Graph, b: nat)
    ensures Dom(g, g.entry, b)
  {
    forall p | PathTo(g, g.entry, p, b) ensures g.entry in p {
      assert p[0] == g.entry;
    }
  }

  lemma EntryOnlyDom(g: Graph, a: nat)
    requires Dom(g, a, g.entry) && g.entry < |g.succs|
    ensures a == g.entry
  {
    assert PathTo(g, g.entry, [g.entry], g.entry);
  }

  lemma {:induction false} DomAntisymAux(g: Graph, a: nat, b: nat, p: seq<nat>)
    requires Dom(g, a, b) && Dom(g, b, a) && PathTo(g, g.entry, p, b)
    ensures a == b
    decreases |p|
  {
    if a != b {
      var i :| 0 <= i < |p| && p[i] == a;
      PathPrefix(g, p, i + 1);
      DomAntisymAux(g, b, a, p[..i + 1]);
    }
  }

  lemma DomAntisym(g: Graph, a: nat, b: nat)
    requires Dom(g, a, b) && Dom(g, b, a) && Reachable(g, b)
    ensures a == b
  {
    var p :| PathTo(g, g.entry, p, b);
    DomAntisymAux(g, a, b, p);
  }

  /** A path to `b` that visits `b` only at its end. */
  lemma {:induction false} FirstVisit(g: Graph, a: nat, p: seq<nat>, b: nat) returns (q: seq<nat>)
    requires PathTo(g, a, p, b)
    ensures PathTo(g, a, q, b) && b !in Front(q) && |q| <= |p|
    decreases |p|
  {
    if b in Front(p) {
      var i :| 0 <= i < |p| - 1 && Front(p)[i] == b;
      PathPrefix(g, p, i + 1);
      q := FirstVisit(g, a, p[..i + 1], b);
    } else {
      q := p;
    }
  }

  lemma {:induction false} LastIndex(p: seq<nat>, a: nat) returns (i: nat)
    requires a in p
    ensures i < |p| && p[i] == a && a !in p[i + 1..]
    decreases |p|
  {
    if Last(p) == a {
      i := |p| - 1;
    } else {
      assert p == Front(p) + [Last(p)];
      i := LastIndex(Front(p), a);
      assert p[i + 1..] == Front(p)[i + 1..] + [Last(p)];
    }
  }

  /** A path from `a` that visits `a` only at its start. */
  lemma LastVisit(g: Graph, p: seq<nat>, a: nat) returns (q: seq<nat>)
    requires IsPath(g, p) && a in p
    ensures IsPath(g, q) && q[0] == a && Last(q) == Last(p) && a !in q[1..]
    ensures 0 < |q| <= |p| && q == p[|p| - |q|..]
  {
    hide IsPath;
    var i := LastIndex(p, a);
    PathSuffix(g, p, i);
    q := p[i..];
    assert q[1..] == p[i + 1..];
  }

  /** A dominator of `c` also dominates any block that reaches `c` without meeting it again. */
  lemma DomBeforeSuffix(g: Graph, a: nat, b: nat, c: nat, q: seq<nat>)
    requires Dom(g, a, c)
    requires PathTo(g, b, q, c) && a !in q[1..]
    ensures Dom(g, a, b)
  {
    forall r | PathTo(g, g.entry, r, b) ensures a in r {
      PathJoin(g, r, q);
      assert PathTo(g, g.entry, r + q[1..], c);
      assert a in r + q[1..];
    }
  }

  /** The dominators of a reachable block form a chain. */
  lemma DomChain(g: Graph, a: nat, b: nat, c: nat)
    requires Reachable(g, c) && Dom(g, a, c) && Dom(g, b, c)
    ensures Dom(g, a, b) || Dom(g, b, a)
  {
    var p :| PathTo(g, g.entry, p, c);
    var qa := LastVisit(g, p, a);
    var qb := LastVisit(g, p, b);
    // Whichever of the two occurs last starts a suffix that avoids the other.
    if |qa| <= |qb| {
      SuffixAvoids(qa, qb, b);
      DomBeforeSuffix(g, b, a, c, qa);
    } else {
      SuffixAvoids(qb, qa, a);
      DomBeforeSuffix(g, a, b, c, qb);
    }
  }

  lemma SuffixAvoids(q: seq<nat>, r: seq<nat>, x: nat)
    requires 0 < |q| <= |r| && q == r[|r| - |q|..] && x !in r[1..]
    ensures x !in q[1..]
  {
    forall k | 0 <= k < |q[1..]| ensures q[1..][k] != x {
      assert q[1..][k] == r[1..][|r| - |q| + k];
    }
  }
}
