/** Critical edges, and graphs that differ only in that some critical edges lead through a vertex of their own. */
module CriticalEdges {
  import opened Graphs
  import opened ControlFlow
  import opened SplitTheory

  /** From a vertex with several successors to one with several predecessors. */
  ghost predicate Critical(g: Graph, x: nat, y: nat) {
    Edge(g, x, y) && OtherPred(g, x, y) && OtherSucc(g, x, y)
  }

  ghost predicate NoCritical(g: Graph, x: nat) {
    forall y: nat :: !Critical(g, x, y)
  }

  /** A critical edge that control can take. */
  ghost predicate CanTake(g: Graph, x: nat, y: nat) {
    Reachable(g, x) && Critical(g, x, y)
  }

  /** The only way to `n` is from `p`, and the only way on is to `b`. */
  ghost predicate Between(g: Graph, p: nat, n: nat, b: nat) {
    && Edge(g, p, n) && Edge(g, n, b)
    && (forall z: nat {:trigger Edge(g, z, n)} :: Edge(g, z, n) ==> z == p)
    && (forall z: nat {:trigger Edge(g, n, z)} :: Edge(g, n, z) ==> z == b)
  }

  /** The critical edge from `p` to `b` now leads through `n`. */
  ghost predicate Replaces(g0: Graph, g: Graph, n: nat, p: nat, b: nat) {
    && |g0.succs| <= n < |g.succs| && p < |g0.succs| && b < |g0.succs|
    && CanTake(g0, p, b) && !Edge(g, p, b) && Between(g, p, n, b)
  }

  ghost predicate IsReplaced(g0: Graph, g: Graph, p: nat, b: nat) {
    exists n: nat :: Replaces(g0, g, n, p, b)
  }

  ghost predicate ReplacesSome(g0: Graph, g: Graph, n: nat) {
    exists p: nat, b: nat :: Replaces(g0, g, n, p, b)
  }

  /** `g` is `g0`, but for critical edges that lead through new vertices: one for each of them, and no others. */
  ghost predicate Subdivides(g0: Graph, g: Graph) {
    && |g0.succs| <= |g.succs|
    && (forall x: nat, y: nat {:trigger Edge(g, x, y)} ::
          x < |g0.succs| && y < |g0.succs| && Edge(g, x, y) ==> Edge(g0, x, y))
    && (forall x: nat, y: nat {:trigger Edge(g0, x, y)} :: Edge(g0, x, y) ==> Edge(g, x, y) || IsReplaced(g0, g, x, y))
    && (forall n: nat {:trigger ReplacesSome(g0, g, n)} :: |g0.succs| <= n < |g.succs| ==> ReplacesSome(g0, g, n))
    && (forall n: nat, n': nat, p: nat, b: nat {:trigger Replaces(g0, g, n, p, b), Replaces(g0, g, n', p, b)} ::
          Replaces(g0, g, n, p, b) && Replaces(g0, g, n', p, b) ==> n == n')
  }

  lemma SubdividesRefl(g: Graph)
    ensures Subdivides(g, g)
  {
    hide CanTake, Between;
  }

  /** Splitting one critical edge. */
  lemma SplitSubdivides(g: Graph, p: nat, b: nat, g': Graph)
    requires SplitsGraph(g, p, b, g') && CanTake(g, p, b)
    ensures Subdivides(g, g')
  {
    hide CanTake;
    var n := |g.succs|;
    assert Edge(g, p, b) && Edge(g', p, n) && Edge(g', n, b);
    assert Replaces(g, g', n, p, b);
    forall x: nat, y: nat | Edge(g, x, y) ensures Edge(g', x, y) || IsReplaced(g, g', x, y) {
      assert Edge(g', x, y) || (x == p && y == b);
    }
    assert ReplacesSome(g, g', n);
  }

  // What stays critical

  lemma SameOtherPred(g0: Graph, g: Graph, x: nat, y: nat)
    requires Subdivides(g0, g) && Edge(g, x, y) && x < |g0.succs| && y < |g0.succs|
    ensures OtherPred(g, x, y) <==> OtherPred(g0, x, y)
  {
    hide CanTake;
    if OtherPred(g0, x, y) {
      var z: nat :| z != x && Edge(g0, z, y);
      if !Edge(g, z, y) {
        var n: nat :| Replaces(g0, g, n, z, y);
        assert Edge(g, n, y);
      }
    }
    if OtherPred(g, x, y) {
      var z: nat :| z != x && Edge(g, z, y);
      if z >= |g0.succs| {
        assert ReplacesSome(g0, g, z);
        var p: nat, b: nat :| Replaces(g0, g, z, p, b);
        assert b == y && p != x;
        TakenIsEdge(g0, p, b);
      }
    }
  }

  lemma SameOtherSucc(g0: Graph, g: Graph, x: nat, y: nat)
    requires Subdivides(g0, g) && Edge(g, x, y) && x < |g0.succs| && y < |g0.succs|
    ensures OtherSucc(g, x, y) <==> OtherSucc(g0, x, y)
  {
    hide CanTake;
    if OtherSucc(g0, x, y) {
      var z: nat :| z != y && Edge(g0, x, z);
      if !Edge(g, x, z) {
        var n: nat :| Replaces(g0, g, n, x, z);
        assert Edge(g, x, n);
      }
    }
    if OtherSucc(g, x, y) {
      var z: nat :| z != y && Edge(g, x, z);
      if z >= |g0.succs| {
        assert ReplacesSome(g0, g, z);
        var p: nat, b: nat :| Replaces(g0, g, z, p, b);
        assert p == x && b != y;
        TakenIsEdge(g0, p, b);
      }
    }
  }

  lemma TakenIsEdge(g: Graph, p: nat, b: nat)
    requires CanTake(g, p, b)
    ensures Edge(g, p, b) && Critical(g, p, b)
  {
  }

  /** An edge that is still there is as critical as it was; no other edge is critical. */
  lemma SameCritical(g0: Graph, g: Graph, x: nat, y: nat)
    requires Subdivides(g0, g) && Edge(g, x, y)
    ensures Critical(g, x, y) <==> x < |g0.succs| && y < |g0.succs| && Critical(g0, x, y)
  {
    if x >= |g0.succs| {
      assert ReplacesSome(g0, g, x);
      var p: nat, b: nat :| Replaces(g0, g, x, p, b);
      BetweenIsPlain(g, p, x, b);
    } else if y >= |g0.succs| {
      assert ReplacesSome(g0, g, y);
      var p: nat, b: nat :| Replaces(g0, g, y, p, b);
      BetweenIsPlain(g, p, y, b);
    } else {
      SameOtherPred(g0, g, x, y);
      SameOtherSucc(g0, g, x, y);
    }
  }

  lemma BetweenIsPlain(g: Graph, p: nat, n: nat, b: nat)
    requires Between(g, p, n, b)
    ensures forall z: nat :: !Critical(g, n, z) && !Critical(g, z, n)
  {
  }

  /** What has one way in and one way out keeps them. */
  lemma BetweenStays(g: Graph, g': Graph, p: nat, n: nat, b: nat)
    requires Subdivides(g, g') && Between(g, p, n, b)
    ensures Between(g', p, n, b)
  {
    hide CanTake;
    BetweenIsPlain(g, p, n, b);
    if !Edge(g', p, n) {
      var m: nat :| Replaces(g, g', m, p, n);
      TakenIsEdge(g, p, n);
    }
    if !Edge(g', n, b) {
      var m: nat :| Replaces(g, g', m, n, b);
      TakenIsEdge(g, n, b);
    }
    forall z: nat | Edge(g', z, n) ensures z == p {
      if z >= |g.succs| {
        assert ReplacesSome(g, g', z);
        var q: nat, c: nat :| Replaces(g, g', z, q, c);
        TakenIsEdge(g, q, c);
      }
    }
    forall z: nat | Edge(g', n, z) ensures z == b {
      if z >= |g.succs| {
        assert ReplacesSome(g, g', z);
        var q: nat, c: nat :| Replaces(g, g', z, q, c);
        TakenIsEdge(g, q, c);
      }
    }
  }

  // One after the other

  ghost predicate SameReach(g0: Graph, g: Graph) {
    forall x: nat {:trigger Reachable(g, x)} :: x < |g0.succs| ==> (Reachable(g, x) <==> Reachable(g0, x))
  }

  /** What the second graph replaces is an edge of the first. */
  lemma ReplacesInOld(g0: Graph, g1: Graph, g: Graph, n: nat, p: nat, b: nat)
    requires Subdivides(g0, g1) && SameReach(g0, g1) && Replaces(g1, g, n, p, b)
    ensures |g0.succs| <= |g1.succs| && Replaces(g0, g, n, p, b)
  {
    hide Between, Reachable, Subdivides, Critical;
    TakenIsEdge(g1, p, b);
    SameCritical(g0, g1, p, b);
    MoreVertices(g0, g1);
  }

  lemma MoreVertices(g0: Graph, g: Graph)
    requires Subdivides(g0, g)
    ensures |g0.succs| <= |g.succs|
  {
  }

  lemma ReplacesStays(g0: Graph, g1: Graph, g: Graph, n: nat, p: nat, b: nat)
    requires Subdivides(g1, g) && Replaces(g0, g1, n, p, b)
    ensures Replaces(g0, g, n, p, b)
  {
    hide CanTake;
    BetweenStays(g1, g, p, n, b);
    MoreVertices(g1, g);
    hide Between;
    assert !Edge(g, p, b);
  }

  lemma SubdividesTrans(g0: Graph, g1: Graph, g: Graph)
    requires Subdivides(g0, g1) && Subdivides(g1, g) && SameReach(g0, g1)
    ensures Subdivides(g0, g)
  {
    hide CanTake, Between, SameReach, Replaces;
    forall x: nat, y: nat | Edge(g0, x, y) ensures Edge(g, x, y) || IsReplaced(g0, g, x, y) {
      if Edge(g1, x, y) {
        if !Edge(g, x, y) {
          var n: nat :| Replaces(g1, g, n, x, y);
          ReplacesInOld(g0, g1, g, n, x, y);
        }
      } else {
        var n: nat :| Replaces(g0, g1, n, x, y);
        ReplacesStays(g0, g1, g, n, x, y);
      }
    }
    forall n: nat | |g0.succs| <= n < |g.succs| ensures ReplacesSome(g0, g, n) {
      if n < |g1.succs| {
        assert ReplacesSome(g0, g1, n);
        var p: nat, b: nat :| Replaces(g0, g1, n, p, b);
        ReplacesStays(g0, g1, g, n, p, b);
      } else {
        assert ReplacesSome(g1, g, n);
        var p: nat, b: nat :| Replaces(g1, g, n, p, b);
        ReplacesInOld(g0, g1, g, n, p, b);
      }
    }
    forall n: nat, n': nat, p: nat, b: nat | Replaces(g0, g, n, p, b) && Replaces(g0, g, n', p, b) ensures n == n' {
      OneReplacement(g0, g1, g, n, n', p, b);
    }
  }

  /** A new vertex of the last graph stands for an edge of the first or of the second. */
  lemma ReplacesWhich(g0: Graph, g1: Graph, g: Graph, n: nat, p: nat, b: nat)
    requires Subdivides(g0, g1) && Subdivides(g1, g) && SameReach(g0, g1) && Replaces(g0, g, n, p, b)
    ensures if n < |g1.succs| then Replaces(g0, g1, n, p, b) else Replaces(g1, g, n, p, b)
  {
    hide CanTake, SameReach, Subdivides;
    if n < |g1.succs| {
      OldReplacement(g0, g1, n);
      var q: nat, c: nat :| Replaces(g0, g1, n, q, c);
      ReplacesStays(g0, g1, g, n, q, c);
    } else {
      OldReplacement(g1, g, n);
      var q: nat, c: nat :| Replaces(g1, g, n, q, c);
    }
  }

  lemma OldReplacement(g0: Graph, g: Graph, n: nat)
    requires Subdivides(g0, g) && |g0.succs| <= n < |g.succs|
    ensures ReplacesSome(g0, g, n)
  {
    hide ReplacesSome;
  }

  lemma OneReplacement(g0: Graph, g1: Graph, g: Graph, n: nat, n': nat, p: nat, b: nat)
    requires Subdivides(g0, g1) && Subdivides(g1, g) && SameReach(g0, g1)
    requires Replaces(g0, g, n, p, b) && Replaces(g0, g, n', p, b)
    ensures n == n'
  {
    ReplacesWhich(g0, g1, g, n, p, b);
    ReplacesWhich(g0, g1, g, n', p, b);
    hide Between, SameReach, IsReplaced, ReplacesSome;
    if n < |g1.succs| <= n' {
      TakenIsEdge(g1, p, b);
    } else if n' < |g1.succs| <= n {
      TakenIsEdge(g1, p, b);
    }
  }

  /** Once control can take no critical edge any more, exactly the critical edges that it could take are gone. */
  lemma ExactlyCritical(g0: Graph, g: Graph, x: nat, y: nat)
    requires Subdivides(g0, g) && SameReach(g0, g) && x < |g0.succs| && y < |g0.succs|
    requires Reachable(g, x) ==> NoCritical(g, x)
    ensures Edge(g, x, y) <==> Edge(g0, x, y) && !CanTake(g0, x, y)
  {
    hide Reachable, Between;
    if Edge(g, x, y) {
      SameCritical(g0, g, x, y);
      assert !(Reachable(g, x) && Critical(g, x, y));
    }
    if Edge(g0, x, y) && !Edge(g, x, y) {
      var n: nat :| Replaces(g0, g, n, x, y);
    }
  }
}
