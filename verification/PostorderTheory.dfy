/** The depth-first traversal behind the CFG post-order: what one stack operation keeps. */
module PostorderTheory {
  import opened IR
  import opened Graphs
  import opened DomTreeTheory

  datatype Visit = First | Final

  type Frame = (Visit, Block)

  predicate Seen(ns: seq<Node>, b: nat) {
    b < |ns| && ns[b].rpo != 0
  }

  predicate NoDup<T(==)>(s: seq<T>) {
    forall i, j :: 0 <= i < j < |s| ==> s[i] != s[j]
  }

  /** Some block after position `i` branches to the block there. */
  ghost predicate HasLaterPred(g: Graph, post: seq<Block>, i: nat)
    requires i < |post|
  {
    exists j :: i < j < |post| && Edge(g, post[j], post[i])
  }

  ghost predicate HasOpenPred(g: Graph, stack: seq<Frame>, b: nat) {
    exists k :: 0 <= k < |stack| && stack[k].0 == Final && Edge(g, stack[k].1, b)
  }

  /** The edge from `u` to `v` closes a cycle. */
  ghost predicate ClosesCycle(g: Graph, u: nat, v: nat) {
    exists p :: PathTo(g, v, p, u)
  }

  /** An edge goes to a block that comes earlier, unless it closes a cycle. */
  ghost predicate RetreatsClose(g: Graph, post: seq<Block>) {
    forall k: nat, v: nat {:trigger Edge(g, post[k], v)} ::
      k < |post| && Edge(g, post[k], v) ==> v in post[..k] || ClosesCycle(g, post[k], v)
  }

  /** A post-order of the reachable part of `g`. */
  ghost predicate IsPostorder(g: Graph, post: seq<Block>) {
    && NoDup(post)
    && (forall b: nat :: b in post <==> Reachable(g, b))
    && |post| > 0 && Last(post) == g.entry
    && (forall i {:trigger HasLaterPred(g, post, i)} :: 0 <= i < |post| - 1 ==> HasLaterPred(g, post, i))
    && RetreatsClose(g, post)
  }

  /** Frame `k` was pushed by the open block at position `src[k]`. */
  ghost predicate PushedByOpen(g: Graph, stack: seq<Frame>, src: seq<nat>, k: nat)
    requires k < |stack| == |src|
  {
    src[k] < k && stack[src[k]].0 == Final && Edge(g, stack[src[k]].1, stack[k].1)
  }

  ghost predicate StackOk(g: Graph, stack: seq<Frame>, src: seq<nat>) {
    && |src| == |stack|
    && (forall k :: 0 <= k < |stack| ==> Reachable(g, stack[k].1) && stack[k].1 < |g.succs|)
    && (forall k :: 0 < k < |stack| ==> PushedByOpen(g, stack, src, k))
    && (forall i, j :: 0 <= i < j < |stack| && stack[i].0 == Final && stack[j].0 == Final ==> stack[i].1 != stack[j].1)
  }

  /** The blocks seen are those finished and those open. */
  ghost predicate SeenOk(ns: seq<Node>, stack: seq<Frame>, post: seq<Block>) {
    && NoDup(post)
    && (forall i :: 0 <= i < |post| ==> Seen(ns, post[i]))
    && (forall k :: 0 <= k < |stack| && stack[k].0 == Final ==> Seen(ns, stack[k].1) && stack[k].1 !in post)
    && (forall b: nat :: Seen(ns, b) ==> b in post || (Final, b) in stack)
  }

  /** A first visit of `v` is waiting above frame `k`. */
  ghost predicate Awaits(stack: seq<Frame>, k: nat, v: nat) {
    exists j :: k < j < |stack| && stack[j] == (First, v)
  }

  /** The successors of a finished block have been seen; those an open block still has to see wait above it. */
  ghost predicate ClosedOk(g: Graph, ns: seq<Node>, stack: seq<Frame>, post: seq<Block>) {
    && (forall b: nat, v: nat {:trigger Edge(g, b, v)} :: b in post && Edge(g, b, v) ==> Seen(ns, v))
    && (forall k: nat, v: nat {:trigger Edge(g, stack[k].1, v)} ::
          k < |stack| && stack[k].0 == Final && Edge(g, stack[k].1, v) ==> Seen(ns, v) || Awaits(stack, k, v))
  }

  /** No block has been opened between a frame and the open block that pushed it. */
  ghost predicate NearestOpen(stack: seq<Frame>, src: seq<nat>) {
    |src| == |stack| && forall k, i :: 0 < k < |stack| && src[k] < i < k ==> stack[i].0 == First
  }

  ghost predicate FinishedOk(g: Graph, stack: seq<Frame>, post: seq<Block>) {
    && (forall i :: 0 <= i < |post| ==> Reachable(g, post[i]))
    && (forall i {:trigger HasLaterPred(g, post, i)} ::
          0 <= i < |post| && post[i] != g.entry ==> HasLaterPred(g, post, i) || HasOpenPred(g, stack, post[i]))
  }

  ghost predicate EntryOk(g: Graph, ns: seq<Node>, stack: seq<Frame>, post: seq<Block>) {
    if |stack| == 0 then
      |post| > 0 && Last(post) == g.entry
    else
      && stack[0].1 == g.entry && g.entry !in post
      && (stack[0].0 == First ==> |stack| == 1 && forall b: nat :: !Seen(ns, b))
  }

  ghost predicate DfsInv(g: Graph, ns: seq<Node>, stack: seq<Frame>, src: seq<nat>, post: seq<Block>) {
    && |ns| == |g.succs|
    && StackOk(g, stack, src)
    && SeenOk(ns, stack, post)
    && ClosedOk(g, ns, stack, post) && NearestOpen(stack, src) && RetreatsClose(g, post)
    && FinishedOk(g, stack, post)
    && EntryOk(g, ns, stack, post)
  }

  lemma DfsStart(g: Graph, ns: seq<Node>)
    requires WellFormed(g) && |ns| == |g.succs| && forall b :: 0 <= b < |ns| ==> ns[b].rpo == 0
    ensures DfsInv(g, ns, [(First, g.entry)], [0], [])
  {
    EntryReachable(g);
  }

  lemma DfsShape(g: Graph, ns: seq<Node>, stack: seq<Frame>, src: seq<nat>, post: seq<Block>)
    requires DfsInv(g, ns, stack, src, post)
    ensures |ns| == |g.succs| && |src| == |stack|
    ensures |stack| > 0 ==> Last(stack).1 < |ns|
  {
  }

  lemma PopStack(g: Graph, stack: seq<Frame>, src: seq<nat>)
    requires StackOk(g, stack, src) && |stack| > 0
    ensures StackOk(g, Front(stack), Front(src))
  {
    forall k | 0 < k < |Front(stack)| ensures PushedByOpen(g, Front(stack), Front(src), k) {
      assert PushedByOpen(g, stack, src, k);
    }
  }

  /** Popping a first visit of a block already seen. */
  lemma DfsSkip(g: Graph, ns: seq<Node>, stack: seq<Frame>, src: seq<nat>, post: seq<Block>)
    requires DfsInv(g, ns, stack, src, post)
    requires |stack| > 0 && Last(stack).0 == First && Seen(ns, Last(stack).1)
    ensures DfsInv(g, ns, Front(stack), Front(src), post)
  {
    hide StackOk, ClosedOk, FinishedOk, NearestOpen, RetreatsClose;
    assert stack == Front(stack) + [Last(stack)];
    PopStack(g, stack, src);
    PopNearest(stack, src);
    SkipKeepsFinished(g, stack, post);
    SkipKeepsClosed(g, ns, stack, post);
    if |Front(stack)| > 0 {
      assert Front(stack)[0] == stack[0];
    }
  }

  lemma SkipKeepsClosed(g: Graph, ns: seq<Node>, stack: seq<Frame>, post: seq<Block>)
    requires ClosedOk(g, ns, stack, post) && |stack| > 0 && (Last(stack).0 == First ==> Seen(ns, Last(stack).1))
    ensures ClosedOk(g, ns, Front(stack), post)
  {
    var s' := Front(stack);
    forall k: nat, v: nat | k < |s'| && s'[k].0 == Final && Edge(g, s'[k].1, v)
      ensures Seen(ns, v) || Awaits(s', k, v)
    {
      assert s'[k] == stack[k];
      if !Seen(ns, v) {
        var j :| k < j < |stack| && stack[j] == (First, v);
        assert s'[j] == stack[j];
      }
    }
  }

  lemma SkipKeepsFinished(g: Graph, stack: seq<Frame>, post: seq<Block>)
    requires FinishedOk(g, stack, post) && |stack| > 0 && Last(stack).0 == First
    ensures FinishedOk(g, Front(stack), post)
  {
    forall i | 0 <= i < |post| && post[i] != g.entry && HasOpenPred(g, stack, post[i])
      ensures HasOpenPred(g, Front(stack), post[i])
    {
      var k :| 0 <= k < |stack| && stack[k].0 == Final && Edge(g, stack[k].1, post[i]);
      assert Front(stack)[k] == stack[k];
    }
  }

  /** Finishing the block on top of the stack. */
  lemma DfsFinish(g: Graph, ns: seq<Node>, stack: seq<Frame>, src: seq<nat>, post: seq<Block>)
    requires DfsInv(g, ns, stack, src, post)
    requires |stack| > 0 && Last(stack).0 == Final
    ensures DfsInv(g, ns, Front(stack), Front(src), post + [Last(stack).1])
  {
    hide StackOk, SeenOk, ClosedOk, FinishedOk, EntryOk, NearestOpen, RetreatsClose;
    PopStack(g, stack, src);
    PopNearest(stack, src);
    FinishKeepsSeen(g, ns, stack, src, post);
    FinishKeepsFinished(g, ns, stack, src, post);
    FinishKeepsClosed(g, ns, stack, src, post);
    FinishKeepsEntry(g, ns, stack, src, post);
  }

  lemma PopNearest(stack: seq<Frame>, src: seq<nat>)
    requires NearestOpen(stack, src) && |stack| > 0
    ensures NearestOpen(Front(stack), Front(src))
  {
    forall k, i | 0 < k < |Front(stack)| && Front(src)[k] < i < k ensures Front(stack)[i].0 == First {
      assert Front(src)[k] == src[k] && Front(stack)[i] == stack[i];
    }
  }

  lemma FinishKeepsEntry(g: Graph, ns: seq<Node>, stack: seq<Frame>, src: seq<nat>, post: seq<Block>)
    requires StackOk(g, stack, src) && EntryOk(g, ns, stack, post) && |stack| > 0 && Last(stack).0 == Final
    ensures EntryOk(g, ns, Front(stack), post + [Last(stack).1])
  {
    hide Edge, Reachable, PushedByOpen;
    if |stack| > 1 {
      assert Front(stack)[0] == stack[0];
    }
  }

  /** An open block leads to every frame above it. */
  lemma {:induction false} OpenChain(g: Graph, stack: seq<Frame>, src: seq<nat>, i: nat, j: nat)
    requires StackOk(g, stack, src) && NearestOpen(stack, src) && i <= j < |stack| && stack[i].0 == Final
    ensures ClosesCycle(g, stack[j].1, stack[i].1)
    decreases j
  {
    if i == j {
      assert PathTo(g, stack[i].1, [stack[i].1], stack[i].1);
    } else {
      assert PushedByOpen(g, stack, src, j);
      OpenChain(g, stack, src, i, src[j]);
      var p :| PathTo(g, stack[i].1, p, stack[src[j]].1);
      PathExtend(g, p, stack[j].1);
      assert PathTo(g, stack[i].1, p + [stack[j].1], stack[j].1);
    }
  }

  /** When a block is finished, each successor is finished or still open. */
  lemma FinishKeepsClosed(g: Graph, ns: seq<Node>, stack: seq<Frame>, src: seq<nat>, post: seq<Block>)
    requires StackOk(g, stack, src) && NearestOpen(stack, src) && SeenOk(ns, stack, post)
    requires ClosedOk(g, ns, stack, post) && RetreatsClose(g, post)
    requires |stack| > 0 && Last(stack).0 == Final
    ensures ClosedOk(g, ns, Front(stack), post + [Last(stack).1])
    ensures RetreatsClose(g, post + [Last(stack).1])
  {
    var top, u := |stack| - 1, Last(stack).1;
    var post' := post + [u];
    SkipKeepsClosed(g, ns, stack, post);
    forall v: nat | Edge(g, u, v) ensures Seen(ns, v) && (v in post || ClosesCycle(g, u, v)) {
      assert Edge(g, stack[top].1, v) && !Awaits(stack, top, v);
      if v !in post {
        var i :| 0 <= i < |stack| && stack[i] == (Final, v);
        OpenChain(g, stack, src, i, top);
      }
    }
    forall k: nat, v: nat | k < |post'| && Edge(g, post'[k], v) ensures v in post'[..k] || ClosesCycle(g, post'[k], v) {
      if k < |post| {
        assert post'[..k] == post[..k] && Edge(g, post[k], v);
      } else {
        assert post'[..k] == post;
      }
    }
  }

  lemma FinishKeepsSeen(g: Graph, ns: seq<Node>, stack: seq<Frame>, src: seq<nat>, post: seq<Block>)
    requires StackOk(g, stack, src) && SeenOk(ns, stack, post)
    requires |stack| > 0 && Last(stack).0 == Final
    ensures SeenOk(ns, Front(stack), post + [Last(stack).1])
  {
    hide Edge, Reachable, PushedByOpen;
    var s' := Front(stack);
    var b := Last(stack).1;
    forall k | 0 <= k < |s'| && s'[k].0 == Final ensures Seen(ns, s'[k].1) && s'[k].1 !in post + [b] {
      assert stack[k] == s'[k];
    }
    forall x: nat | Seen(ns, x) ensures x in post + [b] || (Final, x) in s' {
      if x !in post && x != b {
        var k :| 0 <= k < |stack| && stack[k] == (Final, x);
        assert s'[k] == stack[k];
      }
    }
  }

  lemma FinishKeepsFinished(g: Graph, ns: seq<Node>, stack: seq<Frame>, src: seq<nat>, post: seq<Block>)
    requires StackOk(g, stack, src) && FinishedOk(g, stack, post) && EntryOk(g, ns, stack, post)
    requires |stack| > 0 && Last(stack).0 == Final
    ensures FinishedOk(g, Front(stack), post + [Last(stack).1])
  {
    var s' := Front(stack);
    var top := |stack| - 1;
    var post' := post + [stack[top].1];
    forall i | 0 <= i < |post'| && post'[i] != g.entry
      ensures HasLaterPred(g, post', i) || HasOpenPred(g, s', post'[i])
    {
      if i == |post| {
        assert PushedByOpen(g, stack, src, top);
        assert s'[src[top]] == stack[src[top]];
      } else if HasLaterPred(g, post, i) {
        var j :| i < j < |post| && Edge(g, post[j], post[i]);
        assert post'[j] == post[j];
      } else {
        var k :| 0 <= k < |stack| && stack[k].0 == Final && Edge(g, stack[k].1, post[i]);
        assert if k == top then post'[|post|] == stack[k].1 else s'[k] == stack[k];
      }
    }
  }

  /** First visit of an unseen block: it is opened and its unseen successors are pushed. */
  lemma DfsVisit(g: Graph, ns: seq<Node>, stack: seq<Frame>, src: seq<nat>,
          post: seq<Block>, b: Block, pushed: seq<Frame>)
    requires DfsInv(g, ns, stack, src, post)
    requires |stack| > 0 && Last(stack) == (First, b) && !Seen(ns, b) && b < |ns|
    requires forall k :: 0 <= k < |pushed| ==> pushed[k].0 == First && Edge(g, b, pushed[k].1)
    requires forall v: nat :: Edge(g, b, v) ==> v == b || Seen(ns, v) || (First, v) in pushed
    ensures DfsInv(g, ns[b := Node(1, None)], Front(stack) + [(Final, b)] + pushed,
                   Front(src) + [Last(src)] + seq(|pushed|, _ => |stack| - 1), post)
  {
    hide StackOk, SeenOk, ClosedOk, FinishedOk, EntryOk, NearestOpen, RetreatsClose;
    VisitFindsUnopened(ns, stack, post, b);
    VisitKeepsStack(g, stack, src, b, pushed);
    VisitKeepsSeen(ns, stack, post, b, pushed);
    VisitKeepsClosed(g, ns, stack, post, b, pushed);
    VisitKeepsNearest(stack, src, b, pushed);
    VisitKeepsFinished(g, ns, stack, post, b, pushed);
  }

  lemma VisitFindsUnopened(ns: seq<Node>, stack: seq<Frame>, post: seq<Block>, b: Block)
    requires SeenOk(ns, stack, post) && !Seen(ns, b)
    ensures forall k :: 0 <= k < |stack| && stack[k].0 == Final ==> stack[k].1 != b
  {
  }

  lemma VisitKeepsFinished(g: Graph, ns: seq<Node>, stack: seq<Frame>, post: seq<Block>, b: Block, pushed: seq<Frame>)
    requires |stack| > 0 && Last(stack) == (First, b) && b < |ns| && FinishedOk(g, stack, post)
    requires EntryOk(g, ns, stack, post)
    ensures FinishedOk(g, Front(stack) + [(Final, b)] + pushed, post)
    ensures EntryOk(g, ns[b := Node(1, None)], Front(stack) + [(Final, b)] + pushed, post)
  {
    hide Edge;
    var s' := Front(stack) + [(Final, b)] + pushed;
    forall i | 0 <= i < |post| && post[i] != g.entry && HasOpenPred(g, stack, post[i])
      ensures HasOpenPred(g, s', post[i])
    {
      var k :| 0 <= k < |stack| && stack[k].0 == Final && Edge(g, stack[k].1, post[i]);
      assert s'[k] == stack[k];
    }
    assert s'[0].1 == stack[0].1;
  }

  lemma VisitKeepsStack(g: Graph, stack: seq<Frame>, src: seq<nat>, b: Block, pushed: seq<Frame>)
    requires StackOk(g, stack, src)
    requires |stack| > 0 && Last(stack) == (First, b) && b < |g.succs|
    requires forall k :: 0 <= k < |stack| && stack[k].0 == Final ==> stack[k].1 != b
    requires forall k :: 0 <= k < |pushed| ==> pushed[k].0 == First && Edge(g, b, pushed[k].1)
    ensures StackOk(g, Front(stack) + [(Final, b)] + pushed, Front(src) + [Last(src)] + seq(|pushed|, _ => |stack| - 1))
  {
    var top := |stack| - 1;
    var s' := Front(stack) + [(Final, b)] + pushed;
    var src' := Front(src) + [Last(src)] + seq(|pushed|, _ => top);
    assert Reachable(g, stack[top].1);
    forall k | 0 <= k < |s'| ensures Reachable(g, s'[k].1) && s'[k].1 < |g.succs| {
      if k > top {
        assert s'[k] == pushed[k - top - 1];
        ReachableStep(g, b, s'[k].1);
      } else if k < top {
        assert s'[k] == stack[k];
      }
    }
    forall k | 0 < k < |s'| ensures PushedByOpen(g, s', src', k) {
      if k <= top {
        assert PushedByOpen(g, stack, src, k);
        assert s'[src[k]] == stack[src[k]];
      } else {
        assert s'[k] == pushed[k - top - 1] && s'[top] == (Final, b);
      }
    }
    assert forall k :: top < k < |s'| ==> s'[k] == pushed[k - top - 1];
    forall i, j | 0 <= i < j < |s'| && s'[i].0 == Final && s'[j].0 == Final ensures s'[i].1 != s'[j].1 {
      assert j <= top;
      assert s'[i] == stack[i];
      assert j < top ==> s'[j] == stack[j];
    }
  }

  lemma VisitKeepsSeen(ns: seq<Node>, stack: seq<Frame>, post: seq<Block>, b: Block, pushed: seq<Frame>)
    requires SeenOk(ns, stack, post)
    requires |stack| > 0 && Last(stack) == (First, b) && !Seen(ns, b) && b < |ns|
    requires forall k :: 0 <= k < |pushed| ==> pushed[k].0 == First
    ensures SeenOk(ns[b := Node(1, None)], Front(stack) + [(Final, b)] + pushed, post)
  {
    var top := |stack| - 1;
    var ns' := ns[b := Node(1, None)];
    var s' := Front(stack) + [(Final, b)] + pushed;
    forall k | 0 <= k < |s'| && s'[k].0 == Final ensures Seen(ns', s'[k].1) && s'[k].1 !in post {
      assert k <= top;
      assert k < top ==> s'[k] == stack[k];
    }
    forall x: nat | Seen(ns', x) ensures x in post || (Final, x) in s' {
      if x == b {
        assert s'[top] == (Final, b);
      } else if x !in post {
        var k :| 0 <= k < |stack| && stack[k] == (Final, x);
        assert s'[k] == stack[k];
      }
    }
  }

  lemma VisitKeepsNearest(stack: seq<Frame>, src: seq<nat>, b: Block, pushed: seq<Frame>)
    requires NearestOpen(stack, src) && |stack| > 0
    requires forall k :: 0 <= k < |pushed| ==> pushed[k].0 == First
    ensures NearestOpen(Front(stack) + [(Final, b)] + pushed,
                        Front(src) + [Last(src)] + seq(|pushed|, _ => |stack| - 1))
  {
    var top := |stack| - 1;
    var s' := Front(stack) + [(Final, b)] + pushed;
    var src' := Front(src) + [Last(src)] + seq(|pushed|, _ => top);
    forall k, i | 0 < k < |s'| && src'[k] < i < k ensures s'[i].0 == First {
      if k <= top {
        assert src'[k] == src[k] && s'[i] == stack[i];
      } else {
        assert s'[i] == pushed[i - top - 1];
      }
    }
  }

  lemma VisitKeepsClosed(g: Graph, ns: seq<Node>, stack: seq<Frame>, post: seq<Block>, b: Block, pushed: seq<Frame>)
    requires ClosedOk(g, ns, stack, post) && b < |ns|
    requires |stack| > 0 && Last(stack) == (First, b)
    requires forall k :: 0 <= k < |pushed| ==> pushed[k].0 == First
    requires forall v: nat :: Edge(g, b, v) ==> v == b || Seen(ns, v) || (First, v) in pushed
    ensures ClosedOk(g, ns[b := Node(1, None)], Front(stack) + [(Final, b)] + pushed, post)
  {
    var top, ns' := |stack| - 1, ns[b := Node(1, None)];
    var s' := Front(stack) + [(Final, b)] + pushed;
    assert forall j :: top < j < |s'| ==> s'[j] == pushed[j - top - 1];
    forall k: nat, v: nat | k < |s'| && s'[k].0 == Final && Edge(g, s'[k].1, v) && !Seen(ns', v)
      ensures Awaits(s', k, v)
    {
      if k == top {
        var j :| 0 <= j < |pushed| && pushed[j] == (First, v);
        assert s'[top + 1 + j] == (First, v);
      } else {
        assert s'[k] == stack[k];
        var j :| k < j < |stack| && stack[j] == (First, v);
        assert s'[j] == stack[j];
      }
    }
  }

  lemma {:induction false} ClosedReaches(g: Graph, ns: seq<Node>, post: seq<Block>, p: seq<nat>)
    requires ClosedOk(g, ns, [], post) && SeenOk(ns, [], post) && IsPath(g, p) && Seen(ns, p[0])
    ensures Seen(ns, Last(p))
    decreases |p|
  {
    if |p| > 1 {
      ClosedReaches(g, ns, post, Front(p));
    }
  }

  /** With the stack empty, the finished blocks are a post-order of everything reachable. */
  lemma DfsDone(g: Graph, ns: seq<Node>, post: seq<Block>)
    requires DfsInv(g, ns, [], [], post)
    ensures IsPostorder(g, post)
    ensures forall b: nat :: Seen(ns, b) <==> Reachable(g, b)
  {
    assert Last(post) in post;
    forall b: nat | Reachable(g, b) ensures Seen(ns, b) {
      var p :| PathTo(g, g.entry, p, b);
      ClosedReaches(g, ns, post, p);
    }
  }
}
