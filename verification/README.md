# Control-flow analyses, edge splitting and layout of the Miden IR, verified

This project models the control-flow analysis stack of the Miden IR compiler in Dafny, together with the
critical-edge splitting pass that depends on it most directly, next-use liveness, and the arithmetic of
struct layout. It proves what these parts promise, against definitions that do not mention them: paths,
dominance over all paths, natural loops, runs of a small-step semantics.

| File | Content |
|---|---|
| `IR.dfy` | blocks with parameters, instructions, branches, program points |
| `Graphs.dfy` | paths, reachability and dominance of directed graphs |
| `ControlFlow.dfy` | the predecessor and successor maps, and their incremental maintenance |
| `PostorderTheory.dfy`, `DomTreeTheory.dfy`, `Dominance.dfy` | depth-first post-order, the iterative dominator algorithm, dominance queries |
| `Preorder.dfy` | the constant-time dominance index |
| `Frontier.dfy` | dominance frontiers |
| `LoopTheory.dfy`, `Loops.dfy` | natural loops and the loop forest |
| `Semantics.dfy`, `Validation.dfy` | runs of a function; the rules that make them safe |
| `Typing.dfy` | type safety of runs, and why the type rules are no stricter |
| `SplitTheory.dfy`, `CriticalEdges.dfy`, `Split.dfy` | splitting one edge; which edges are split; the whole pass |
| `LivenessTheory.dfy`, `Liveness.dfy` | next-use distances and the worklist that computes them |
| `Pipeline.dfy` | what validation and splitting give to liveness |
| `Layout.dfy` | sizes, alignments, struct layout, `getelementptr` |

The analyses are classes whose methods work on their fields in loops, as the originals do. What they compute
is tied to predicates on values, and the theory modules prove what those predicates mean.

## How the program is modelled

* An instruction is identified by its place, a block and a position. `inst_block` is then a projection, and
  `pp_cmp` compares positions. No modelled operation moves an instruction: insertion happens at the end of a
  block, and a terminator is rewritten in place.
* All blocks with an index below `NumBlocks()` are attached. A branch to a detached block is a branch to an
  index beyond.
* Sets and maps are iterated in an arbitrary order; the results do not depend on it, except that the post-order
  follows the branch order of the source.
* A panic of the original (`expect`, `unwrap`, `assert!`, `unimplemented!`) is either proved impossible, or is a
  result `ok == false` or `None` whose exact condition is part of the contract.
* Values are integers, and an ordinary instruction may produce any results: statements about runs hold for
  every meaning of the instructions. A run records the executed instructions with operands and results.
* `requires Consistent(dfg)` says what the data structure guarantees: values that are read exist, and are
  defined where their data says if that place is attached. `Exact`, `Describes` and `LoopsUsable` say that an
  analysis passed as an argument was computed for this function.

## Where code and documentation differ

The model follows the code.

* The constant-time dominance check is documented to agree with the tree walk; it answers "yes" for any two
  unreachable blocks. `Preorder.FastAgreesWithTree` gives the exact condition, `Preorder.FastDisagrees` an example.
* Dominance frontiers are the documented sets if and only if no reachable block branches to the entry
  (`Frontier.FrontierIsDocumented`; `Frontier.EntryFrontierMissed` has one that does); when the entry has two or more
  predecessors the computation fails.
* After splitting, the documentation says, no block has both several predecessors and several successors. What
  the code gives is that no reachable edge connects a block with several successors to one with several
  predecessors (`Split.NoCriticalEdges`). The documented promise holds of the result exactly when it held of the
  original (`Split.PromiseIff`); it fails for every loop whose header has two predecessors and two successors
  (`Split.PromiseFails` has one, which the pass accepts by `Split.ExampleIsSplit`).
* Leaving a loop is documented to cost 1000 in liveness; the code uses 100 000. Which edges leave a loop is as
  documented (`Liveness.PenaltyIffLeaves`).
* Liveness is documented to visit blocks in reverse post-order, until a fixpoint is reached. The code visits them in
  post-order, and visits again only the block whose own header has changed. What that gives is exact on functions
  without cycles (`Liveness.ExactWithoutLoops`, `Liveness.OutExactWithoutLoops`) and covers one retreating edge
  elsewhere, in the blocks that are visited again (`Liveness.OneRetreatKnown`).
* A requested alignment below the default one is documented to have no effect. It has none on size and fields
  (`Layout.LowAlignKeepsLayout`), but it becomes the alignment of the struct: it is without effect exactly when it
  equals the default (`Layout.AlignEffectIff`; `Layout.LowAlignHasEffect` is an example). The message about the
  number of fields says 255; 256 are accepted.
* A packed alignment not below the default one is documented to have no effect. Size and fields are those of the
  default representation (`Layout.HighPackedKeepsLayout`), but the alignment of the struct becomes the requested one
  (`Layout.PackedAlignmentIff`).
* The loop search follows all predecessors, reachable or not. When an unreachable block branches into two separate
  loops, the natural loops have no forest at all (`Loops.StrayHasNoForest`); the analysis is right exactly for the
  functions whose natural loops are nested (`Loops.LoopAnalysis.Compute`, `Loops.ForestNeedsNesting`).

## Model

| member | source | states |
|---|---|---|
| `ControlFlow.ControlFlowGraph.Compute` | hir-analysis/src/control_flow.rs:71-80 | The maps hold exactly the edges of the function: successors of a block are the targets of its last instruction, predecessors of a block are the last instructions that branch to it, each mapped to its own block. |
| `ControlFlow.ControlFlowGraph.ComputeBlock` | hir-analysis/src/control_flow.rs:136-140 | Adds the edges of one block, of whatever form its last instruction is, and nothing else. |
| `ControlFlow.ControlFlowGraph.AddArms` | hir-analysis/src/control_flow.rs:215-217 | One edge per arm of a switch; arms that share a target add one edge. |
| `ControlFlow.ControlFlowGraph.AddEdge` | hir-analysis/src/control_flow.rs:154-162 | Records one edge in both directions. |
| `ControlFlow.ControlFlowGraph.InvalidateBlockSuccessors` | hir-analysis/src/control_flow.rs:142-152 | Forgets all edges out of a block, in both directions, self-loops included; edges into it stay. |
| `ControlFlow.ControlFlowGraph.RecomputeBlock` | hir-analysis/src/control_flow.rs:82-92 | Replaces the edges out of one block by those its instructions now have, for any edit of the block, and keeps the two directions mirrored. |
| `ControlFlow.ControlFlowGraph.DetachBlock` | hir-analysis/src/control_flow.rs:94-101 | Removes the edges out of a block and keeps the two directions mirrored. |
| `ControlFlow.ControlFlowGraph.PredIter` | hir-analysis/src/control_flow.rs:117-119 | Lists each recorded predecessor once, in no particular order. |
| `ControlFlow.ControlFlowGraph.SuccIter` | hir-analysis/src/control_flow.rs:122-125 | Lists each recorded successor once. |
| `ControlFlow.RecomputeIsExact` | hir-analysis/src/control_flow.rs:82-92 | If the graph was exact and only one block changed, recomputing that block gives the graph that a computation from scratch would give. |
| `ControlFlow.ExactIsUnique` | hir-analysis/src/control_flow.rs:68-80 | Two graphs exact for the same function agree on every block, so "as from scratch" determines both maps. |
| `ControlFlow.ExactIsMirrored` | hir-analysis/src/control_flow.rs:136-162 | A graph computed from scratch is mirrored: s is a successor of b if and only if some instruction of b is a predecessor entry of s. |
| `ControlFlow.RecomputeIsMirrored` | hir-analysis/src/control_flow.rs:88-92 | Mirroring survives recomputing a block, whatever it has become; with `DetachIsMirrored`, it survives any sequence of such edits. |
| `ControlFlow.DetachIsMirrored` | hir-analysis/src/control_flow.rs:98-101 | Mirroring survives detaching a block. |
| `ControlFlow.EntriesArePreds` | hir-analysis/src/control_flow.rs:165-176 | On an exact graph the predecessor iterator walks exactly the edges into the block, one terminator per predecessor block. |
| `Graphs.DomChain` | hir-analysis/src/dominance.rs:123-124 | The dominators of a reachable block form a chain: of any two, one dominates the other. |
| `Graphs.DomAntisym` | hir-analysis/src/dominance.rs:155-162 | Two different reachable blocks do not dominate each other. |
| `Graphs.DomTrans` | hir-analysis/src/dominance.rs:155-156 | Path dominance is transitive. |
| `Graphs.DomPred` | hir-analysis/src/dominance.rs:155-156 | A strict dominator of a block dominates every predecessor of it. |
| `Graphs.DomFromPreds` | hir-analysis/src/dominance.rs:155-156 | What dominates all reachable predecessors dominates the block. |
| `PostorderTheory.DfsVisit` | hir-analysis/src/dominance.rs:287-318 | The stack invariant of the depth-first search survives the first visit of a block and pushing its successors. |
| `PostorderTheory.DfsFinish` | hir-analysis/src/dominance.rs:321-324 | It survives finishing a block; each successor is by then finished or still open. |
| `PostorderTheory.OpenChain` | hir-analysis/src/dominance.rs:287-324 | An open block leads to every frame above it on the stack, by a path of the graph. |
| `PostorderTheory.FinishKeepsClosed` | hir-analysis/src/dominance.rs:321-324 | When a block is finished, an edge to a block not yet finished closes a cycle. |
| `PostorderTheory.DfsDone` | hir-analysis/src/dominance.rs:263-327 | With an empty stack the output is a post-order: every reachable block exactly once, the entry last, every other block with a predecessor later in the list, and every edge to a block not earlier in the list on a cycle. |
| `Dominance.DominatorTree.ComputePostorder` | hir-analysis/src/dominance.rs:263-327 | Terminates; `postorder` is such a post-order, and exactly the reachable blocks are marked. |
| `Dominance.DominatorTree.VisitTop` | hir-analysis/src/dominance.rs:286-325 | One iteration of the search keeps the stack invariant and decreases the measure. |
| `Dominance.DominatorTree.PushSuccessors` | hir-analysis/src/dominance.rs:302-316 | Pushes a first visit for every unseen successor, and for successors only. |
| `DomTreeTheory.NcaDominated` | hir-analysis/src/dominance.rs:382-401 | Every strict dominator of a block dominates the nearest common ancestor of its numbered predecessors, so one recomputation never climbs past a dominator. |
| `DomTreeTheory.DomIsAnc` | hir-analysis/src/dominance.rs:331-378 | In every tree that keeps the invariant, finished or not, whatever dominates a block is an ancestor of it. |
| `DomTreeTheory.NumberBlock` | hir-analysis/src/dominance.rs:347-361 | Numbering one more block in the first pass keeps the tree invariant and the facts about forward edges used for termination. |
| `DomTreeTheory.Recompute` | hir-analysis/src/dominance.rs:367-377 | Recomputing one immediate dominator keeps the tree invariant and its relation to the tree at the start of the pass; the number of the parent never rises. |
| `DomTreeTheory.MoveUpShrinks` | hir-analysis/src/dominance.rs:367-377 | Moving a parent link up the tree only removes ancestors, for every block below it. |
| `DomTreeTheory.MoveLosesAncestor` | hir-analysis/src/dominance.rs:367-377 | A parent link that moves takes an ancestor away from its block, and adds none anywhere. |
| `DomTreeTheory.AncIffDom` | hir-analysis/src/dominance.rs:331-378 | At the fixpoint tree ancestry equals dominance over all paths, on irreducible graphs too. |
| `DomTreeTheory.SettledIsFixpoint` | hir-analysis/src/dominance.rs:366-377 | In a settled tree recomputing a block finds the parent it has, whatever the graph. |
| `Dominance.DominatorTree.Compute` | hir-analysis/src/dominance.rs:74-80 | For every control flow graph: the finished tree is the dominator tree, and on reducible control flow the convergence loop runs a single, unchanged pass. |
| `Dominance.DominatorTree.ComputeDomtree` | hir-analysis/src/dominance.rs:331-378 | The same, from a computed post-order. |
| `Dominance.DominatorTree.NumberBlocks` | hir-analysis/src/dominance.rs:345-361 | Every reachable block gets its number in steps of 4 and a parent numbered before it; the `expect` on a numbered predecessor never fails. |
| `Dominance.DominatorTree.Converge` | hir-analysis/src/dominance.rs:363-377 | Terminates on every graph, with a settled tree. |
| `Dominance.DominatorTree.RunPass` | hir-analysis/src/dominance.rs:368-377 | No block gains an ancestor in a pass; if `changed` is set some block has lost one and the sum of the parent numbers has fallen, and otherwise the tree is settled. On reducible control flow nothing changes. |
| `Dominance.DominatorTree.Refresh` | hir-analysis/src/dominance.rs:370-376 | Recomputing one block in a pass keeps the pass invariant. |
| `Dominance.DominatorTree.ComputeIdom` | hir-analysis/src/dominance.rs:382-401 | The result is the terminator of the nearest common ancestor of all numbered predecessors. |
| `Dominance.DominatorTree.CommonDominator` | hir-analysis/src/dominance.rs:219-258 | The two-finger walk finds the nearest common ancestor, exactly. |
| `Dominance.DominatorTree.LastDominator` | hir-analysis/src/dominance.rs:186-214 | The terminator of `a` if it is a strict ancestor of the block of `b`; the instruction of `b` itself in the same block; otherwise none. |
| `Dominance.DominatorTree.Dominates` | hir-analysis/src/dominance.rs:163-182 | True if and only if every path from the entry to `b` goes through `a`, for blocks and instructions, where `b` is reachable; for unreachable `b`, only order within the block counts. |
| `Dominance.PointDomIffDom` | hir-analysis/src/dominance.rs:155-162 | Dominance of program points is block dominance, refined by position within one block. |
| `Dominance.TreeIsDominance` | hir-analysis/src/dominance.rs:147-162 | Reachable blocks: tree ancestry is path dominance. |
| `Dominance.IdomIsImmediate` | hir-analysis/src/dominance.rs:113-129 | `idom` of a reachable non-entry block is the terminator of its closest strict dominator; it is absent for the entry and for unreachable blocks. |
| `Preorder.DominatorTreePreorder.Compute` | hir-analysis/src/dominance.rs:441-487 | Child links, numbers and maxima describe a pre-order walk of the dominator tree. |
| `Preorder.DominatorTreePreorder.LinkChildren` | hir-analysis/src/dominance.rs:445-458 | The children of a block are linked in reverse post-order. |
| `Preorder.DominatorTreePreorder.AssignNumbers` | hir-analysis/src/dominance.rs:460-474 | The stack walk numbers the blocks 1, 2, ... in the order of the recursive walk. |
| `Preorder.DominatorTreePreorder.PropagateMaxima` | hir-analysis/src/dominance.rs:476-486 | `pre_max` of a block becomes the largest number in its subtree. |
| `Preorder.WalkContents` | hir-analysis/src/dominance.rs:460-474 | The walk from a child list visits exactly the subtrees of that list. |
| `Preorder.SubtreeInWalk` | hir-analysis/src/dominance.rs:425-428 | A subtree is a contiguous piece of the walk. |
| `Preorder.MaxIsUpperBound` | hir-analysis/src/dominance.rs:425-428 | No block of the subtree has a number above `pre_max`. |
| `Preorder.IntervalIsSubtree` | hir-analysis/src/dominance.rs:421-428 | The blocks dominated by `a` are exactly those numbered from `pre_number` to `pre_max` of `a`. |
| `Preorder.FastIsDominance` | hir-analysis/src/dominance.rs:499-510 | For a reachable second block the constant-time test is path dominance; for an unreachable one it holds exactly when the first is unreachable too. |
| `Preorder.FastAgreesWithTree` | hir-analysis/src/dominance.rs:499-510 | It gives the answer of the tree walk exactly when the blocks are equal or one of them is reachable; for two unreachable blocks the documentation is wrong. |
| `Preorder.FastDisagrees` | hir-analysis/src/dominance.rs:499-510 | A function where it does not: the check claims that one unreachable block dominates another. |
| `Frontier.DominanceFrontier.Compute` | hir-analysis/src/dominance.rs:622-646 | Each reachable block gets its frontier, the entry left out; fails exactly when the entry has two or more predecessors. |
| `Frontier.DominanceFrontier.RunUp` | hir-analysis/src/dominance.rs:634-642 | One walk adds the block to the frontier of every block between the predecessor and the immediate dominator. |
| `Frontier.RunsAreFrontier` | hir-analysis/src/dominance.rs:553-562 | The blocks met by these walks are exactly those that dominate a predecessor of N without strictly dominating N. |
| `Frontier.JoinsAreFrontier` | hir-analysis/src/dominance.rs:625-643 | What the loop over joins records is the frontier without the entry: skipping blocks with fewer than two predecessors loses nothing. |
| `Frontier.SinglePredNoFrontier` | hir-analysis/src/dominance.rs:627-629 | A reachable block with a single predecessor is in no frontier, unless it is the entry. |
| `Frontier.FrontierIsDocumented` | hir-analysis/src/dominance.rs:553-562 | The computed sets are the documented frontier if and only if no reachable block branches to the entry. |
| `Frontier.EntryFrontierMissed` | hir-analysis/src/dominance.rs:625-629 | A function where they are not: an entry that branches to itself is in its own frontier, and is not recorded. |
| `LoopTheory.BodyDominated` | hir-analysis/src/loops.rs:200-221 | A header dominates every block of its loop. |
| `LoopTheory.SharedBlockNests` | hir-analysis/src/loops.rs:227-297 | Of two loops that share a reachable block, one holds the header of the other, and so all of it. |
| `LoopTheory.ReachableLoopsNest` | hir-analysis/src/loops.rs:227-297 | If no unreachable block branches to a reachable one, the same holds of all shared blocks: the loops of the function are nested. |
| `LoopTheory.LoopsNest` | hir-analysis/src/loops.rs:227-297 | A loop that holds the header of another holds all of it. |
| `LoopTheory.NestedOrDisjoint` | hir-analysis/src/loops.rs:227-297 | Where loops are nested in this sense, any two natural loops are nested or disjoint. |
| `LoopTheory.EntersBeside` | hir-analysis/src/loops.rs:227-297 | An edge from one natural loop into another, neither of which holds both ends, has a second way out at its source and a second predecessor at its target: it is critical. |
| `Loops.LoopAnalysis.Compute` | hir-analysis/src/loops.rs:104-112 | The result is the loop forest of the function, whenever its natural loops are nested; no other function has a loop forest (`Loops.ForestNeedsNesting`). |
| `Loops.LoopAnalysis.FindLoopHeaders` | hir-analysis/src/loops.rs:200-223 | One loop per target of a back edge, outer headers first. |
| `Loops.LoopAnalysis.HasBackEdge` | hir-analysis/src/loops.rs:207-221 | Found if and only if some predecessor is dominated by the block. |
| `Loops.LoopAnalysis.DiscoverLoopBlocks` | hir-analysis/src/loops.rs:227-297 | Every loop holds exactly its natural body, under the same condition. |
| `Loops.LoopAnalysis.DiscoverOne` | hir-analysis/src/loops.rs:236-296 | One backward search that jumps over the inner loops already found; terminates with the body of the loop, under the same condition. |
| `Loops.LoopAnalysis.Climb` | hir-analysis/src/loops.rs:255-271 | Ends at the outermost loop found so far, or just inside the current loop. |
| `Loops.LoopAnalysis.BackEdgeSources` | hir-analysis/src/loops.rs:237-246 | The sources of the back edges to a header. |
| `Loops.LoopAnalysis.PushPreds` | hir-analysis/src/loops.rs:290-294 | Adds all predecessors of a block to the stack. |
| `Loops.LoopAnalysis.AssignLoopLevels` | hir-analysis/src/loops.rs:299-320 | Every loop gets min(nesting depth, 254). |
| `Loops.LoopAnalysis.LevelUp` | hir-analysis/src/loops.rs:303-319 | Levels of a loop and its ancestors, outermost first; levels already set are kept. |
| `Loops.LoopAnalysis.IsChildLoop` | hir-analysis/src/loops.rs:172-185 | True if and only if the second loop is the first or one around it. |
| `Loops.LoopAnalysis.IsInLoop` | hir-analysis/src/loops.rs:162-170 | True if and only if the block is the header or reaches a back-edge source without passing through the header. |
| `Loops.SearchTag` | hir-analysis/src/loops.rs:249-253 | The search invariant survives tagging a block. |
| `Loops.SearchLink` | hir-analysis/src/loops.rs:278-283 | It survives hanging a whole inner loop under the current one and continuing from its header. |
| `Loops.SearchComplete` | hir-analysis/src/loops.rs:247-296 | When the stack is empty the whole body has been found. |
| `Loops.ParentContains` | hir-analysis/src/loops.rs:227-297 | A parent comes earlier, its header strictly dominates the child's, and its body contains the child's. |
| `Loops.InnermostIsSmallest` | hir-analysis/src/loops.rs:150-153 | The recorded loop of a block contains it and is contained in every loop that does; a block without one is in no loop. |
| `Loops.LevelIsNesting` | hir-analysis/src/loops.rs:35-41 | The level of a loop is the number of loops around its header, capped at 254. |
| `Loops.ForestNeedsNesting` | hir-analysis/src/loops.rs:227-297 | If tags and parents describe the natural loops of a function, reachable or not, these are nested: the condition of `Compute` is necessary. |
| `Loops.StrayHasNoForest` | hir-analysis/src/loops.rs:290-294 | A function in which an unreachable block branches into two separate loops: no tags and parents describe its natural loops. |
| `Semantics.ChosenIsTarget` | hir/src/dataflow.rs:470-522 | The edge a branch takes is one of the edges of its block. |
| `Validation.FunctionValidator.Validate` | hir-analysis/src/validation/function.rs:25-52 | Accepts exactly the functions that satisfy the block, use and branch rules; a rejection names a block or an instruction that breaks one. Values of detached blocks are allowed as input. |
| `Validation.FunctionValidator.ValidateBlock` | hir-analysis/src/validation/block.rs:134-239 | Accepted if and only if the block is not empty, ends with its only terminator, and branches to attached, distinct blocks. |
| `Validation.FunctionValidator.CheckSuccessors` | hir-analysis/src/validation/block.rs:184-220 | True if and only if all targets are attached and no two are equal. |
| `Validation.FunctionValidator.ValidateUses` | hir-analysis/src/validation/block.rs:26-108 | Accepted if and only if every value read in the block is dominated by its definition. |
| `Validation.FunctionValidator.CheckUses` | hir-analysis/src/validation/block.rs:40-104 | The same for one instruction, which may not use its own results. |
| `Validation.FunctionValidator.CheckUse` | hir-analysis/src/validation/block.rs:71-90 | The same for one value: parameter of this block, parameter of another block, or instruction result. |
| `Validation.UseRuleIff` | hir-analysis/src/validation/block.rs:71-104 | A use is accepted if and only if every path from the entry to it meets the definition first; in a block that cannot be reached, if and only if the definition stands in the same block and not after it. |
| `Validation.DetachedUseRejected` | hir-analysis/src/validation/block.rs:18-19 | A function that reads a value of a detached block, parameter or result, is not valid. |
| `Validation.FunctionValidator.ValidateTypes` | hir-analysis/src/validation/typecheck.rs:214-299 | Accepted if and only if each branch passes as many arguments as its target takes, of the same types, a condition has type `i1`, and a switch decides on a `u32`, with unique keys and targets without parameters. |
| `Validation.FunctionValidator.CheckTypes` | hir-analysis/src/validation/typecheck.rs:214-299 | The same for one instruction. |
| `Validation.FunctionValidator.CheckArgs` | hir-analysis/src/validation/typecheck.rs:194-229 | True if and only if the arguments of one branch target match its parameters in number and in type. |
| `Validation.FunctionValidator.CheckKeys` | hir-analysis/src/validation/typecheck.rs:284-288 | True if and only if no two arms have the same key. |
| `Validation.RunCovers` | hir-analysis/src/validation/block.rs:72-105 | In every run of an accepted function, everything defined on the path taken so far is assigned. |
| `Validation.UseIsAssigned` | hir-analysis/src/validation/block.rs:72-105 | A value whose definition dominates its use is assigned when the use is reached. |
| `Validation.ValidRunsAreSafe` | hir-analysis/src/validation/block.rs:72-105 | A function accepted by the rules never reads an unassigned value and never gets stuck, in runs of any length. |
| `Typing.ValidRunsAreTyped` | hir-analysis/src/validation/typecheck.rs:194-299 | Type safety: if an accepted function is called with arguments of their types and ordinary instructions produce results of their types, every assigned value has its type in every run, a conditional branch decides on 0 or 1, and a switch on a number below 2^32. An `i1` is 0 or 1, a `u32` below 2^32, every other type means anything. |
| `Typing.OperandRuleIff` | hir-analysis/src/validation/typecheck.rs:1073-1074 | The rule is no stricter: the operand of a branch is accepted if and only if it may hold the numbers the branch decides between and no others, whatever types mean. |
| `Typing.ArgsRuleIff` | hir-analysis/src/validation/typecheck.rs:194-229 | Nor are the rules for arguments: they are accepted if and only if there is one for each parameter, which may hold the same numbers, whatever types mean. |
| `Typing.ValidSwitchTakesArm` | hir-analysis/src/validation/typecheck.rs:284-299 | In an accepted function every arm of a switch is taken for its key, and the default for every other number. |
| `Typing.KeyRuleIff` | hir-analysis/src/validation/typecheck.rs:284-288 | Where arms go to different blocks, that is so if and only if the keys differ. |
| `SplitTheory.InsertSplit` | hir-transform/src/split_critical_edges.rs:20-23 | Every path of the original has a path of the result with the same ends and the same original blocks. |
| `SplitTheory.EraseSplit` | hir-transform/src/split_critical_edges.rs:20-23 | And the other way round. |
| `SplitTheory.SplitDom` | hir-transform/src/split_critical_edges.rs:82-124 | Dominance between original blocks is the same before and after splitting an edge. |
| `SplitTheory.NewVertexDom` | hir-transform/src/split_critical_edges.rs:82-124 | The new block is reachable when the source of the edge is, and is dominated by exactly what dominates that source (and itself). |
| `SplitTheory.SplitGraph` | hir-transform/src/split_critical_edges.rs:82-124 | The graph of the rewritten function is that of the original with one edge subdivided. |
| `SplitTheory.SplitJoins` | hir-transform/src/split_critical_edges.rs:82-124 | Splitting an edge changes no original block's having several predecessors. |
| `SplitTheory.SplitForks` | hir-transform/src/split_critical_edges.rs:82-124 | Nor its having several successors. |
| `SplitTheory.EnterSplit` | hir-transform/src/split_critical_edges.rs:95-108 | The redirected branch enters the new block with the environment and trace unchanged. |
| `SplitTheory.LeaveSplit` | hir-transform/src/split_critical_edges.rs:112-124 | The new block makes the jump the original branch would have made. |
| `SplitTheory.OtherSteps` | hir-transform/src/split_critical_edges.rs:82-124 | Every other step is the same in both functions. |
| `SplitTheory.SplitReaches` | hir-transform/src/split_critical_edges.rs:51-130 | After splitting an edge the same states are reached in the original blocks and the same values returned; the new block is entered exactly when the original takes the edge. |
| `SplitTheory.SplitIsValid` | hir-transform/src/split_critical_edges.rs:82-124 | Splitting an edge of a reachable block keeps a valid function valid, the moved arguments included. |
| `SplitTheory.SplitConsistent` | hir-transform/src/split_critical_edges.rs:82-124 | The bookkeeping of values stays consistent, and values that are used stay defined in attached blocks. |
| `Split.Function.CreateBlock` | hir/src/dataflow.rs:544-549 | The new block is empty and takes nothing, so it has no edges; every other block keeps its instructions, parameters and edges. |
| `Split.Function.InsertInst` | hir/src/dataflow.rs:210-240 | The block has its old instructions, in order, and the new one last, whose targets become the edges of the block; parameters and all other blocks stay as they were. |
| `Split.Function.SetTerminator` | hir-transform/src/split_critical_edges.rs:85-108 | The last instruction keeps its results and gets the new operation, whose targets become the edges of the block; the instructions before it, the parameters and all other blocks stay as they were. |
| `Split.Function.SplitCriticalEdge` | hir-transform/src/split_critical_edges.rs:76-124 | Creating the block, redirecting the branch and moving the arguments amounts to subdividing the edge. |
| `Split.SplitSuccessors` | hir-transform/src/split_critical_edges.rs:62-129 | All critical edges out of one block are split and no others, and the control flow graph is again that of the function; fails exactly when one of them leaves a switch. |
| `Split.Run` | hir-transform/src/split_critical_edges.rs:32-133 | Succeeds exactly when no reachable switch has a critical edge. Then exactly the critical edges of reachable blocks are gone, each leading through an added block of its own with one predecessor and one successor, and every added block stands for one of them; a function without such edges stays as it is. The maintained graph equals one computed from scratch, and paths, dominance, runs and validity are preserved. No reachable block of the result both joins and forks if and only if none of the original did. |
| `Split.PromiseIff` | hir-transform/src/split_critical_edges.rs:25-26 | The documented promise, that no block has both several predecessors and several successors, holds after any number of splits if and only if it held before them. |
| `Split.PromiseFails` | hir-transform/src/split_critical_edges.rs:25-26 | A loop whose header has two predecessors and two successors: whatever the pass makes of it does not meet the promise. |
| `Split.ExampleIsSplit` | hir-transform/src/split_critical_edges.rs:51-130 | On that function the pass succeeds. |
| `Split.PreservesTrans` | hir-transform/src/split_critical_edges.rs:51-130 | Preservation composes over any number of splits. |
| `CriticalEdges.SplitSubdivides` | hir-transform/src/split_critical_edges.rs:12-23 | Splitting one critical edge replaces that edge by a way through a new block, and changes no other. |
| `CriticalEdges.SubdividesTrans` | hir-transform/src/split_critical_edges.rs:51-130 | Replacing critical edges one after the other replaces critical edges of the original, each once. |
| `CriticalEdges.SameCritical` | hir-transform/src/split_critical_edges.rs:62-72 | An edge that is still there is as critical as it was in the original; no edge of an added block is critical. So the order in which edges are split does not matter. |
| `CriticalEdges.ExactlyCritical` | hir-transform/src/split_critical_edges.rs:12-23 | Once no reachable critical edge is left, an original edge is gone if and only if it was critical and its source reachable. |
| `Split.SplitsOneMore` | hir-transform/src/split_critical_edges.rs:68-127 | Splitting one edge leaves every other block as critical, or as clean, as it was. |
| `Split.SplitNext` | hir-transform/src/split_critical_edges.rs:76-126 | After recomputing only the new block, the graph is that of the function in which the source still has its old terminator. |
| `Split.SplitEnd` | hir-transform/src/split_critical_edges.rs:129 | Recomputing the source then makes it exact. |
| `Split.SplitRunsSafely` | hir-transform/src/split_critical_edges.rs:51-130 | A valid function returns exactly what it returned before the pass, and still runs safely. |
| `Split.SplitEnablesLiveness` | hir-analysis/src/liveness.rs:538-547 | After the pass the single-predecessor assertion of liveness holds at a reachable block if and only if its branch has two different targets, or it is the only block that branches to what it branches to. |
| `LivenessTheory.Context.EdgesMonotone` | hir-analysis/src/liveness.rs:263-269 | Joining over the edges of a branch is monotone in the headers of the targets. |
| `LivenessTheory.Context.ScanSound` | hir-analysis/src/liveness.rs:417-627 | Every finite distance a backward scan records, at or after an instruction, is the weight of a path to a use on which the value is not defined again. |
| `LivenessTheory.Context.HeaderSound` | hir-analysis/src/liveness.rs:624-644 | The same at the head of the block. |
| `LivenessTheory.Context.HeaderMonotone` | hir-analysis/src/liveness.rs:645-666 | Better headers in the successors give a header that knows at least the same values at no greater distances. |
| `LivenessTheory.Context.ScanComplete` | hir-analysis/src/liveness.rs:417-627 | A scan misses no use that lies ahead on a forward path, or on one that retreats once where the headers it reads know what lies beyond, neither at an instruction nor after it. |
| `LivenessTheory.TableRankFalls` | hir-analysis/src/liveness.rs:645-666 | The measure of all headers falls when a header improves. |
| `Liveness.LivenessAnalysis.Compute` | hir-analysis/src/liveness.rs:371-671 | Terminates; gives up exactly when a reachable block is empty or a reachable branch with several targets has a critical edge. Otherwise, at and after every point of the reachable blocks, all recorded finite distances are those of paths to uses; no use on a forward path is missed or put too far, nor on a path that retreats once through blocks that are visited again; and every value is recorded where it is defined. |
| `Liveness.LivenessAnalysis.VisitBlock` | hir-analysis/src/liveness.rs:412-671 | One visit records the scan of the block and its header, and asks for another visit if and only if the header differs from the recorded one, or nothing was recorded, not even for an edge of the block to itself. |
| `Liveness.FirstAsksAgain` | hir-analysis/src/liveness.rs:642-655 | The first visit of a block asks for another one if no edge retreats to the block, or it has parameters, or a use lies ahead of its head on a forward path. |
| `Liveness.QueueStep` | hir-analysis/src/liveness.rs:382-386 | Second visits take place after all first visits, in the same order, and none that has been asked for is left out. |
| `Liveness.LivenessAnalysis.ScanInst` | hir-analysis/src/liveness.rs:417-627 | What is recorded for one instruction, by its kind. |
| `Liveness.LivenessAnalysis.OverEdge` | hir-analysis/src/liveness.rs:479-524 | What is live over an edge, exactly, as seen by the branch and after it: the header of the target with its arguments passed and without its parameters, at 100 000 more if the edge leaves a loop. |
| `Liveness.LivenessAnalysis.OverEdges` | hir-analysis/src/liveness.rs:531-589 | The joins over all edges, exactly, or failure if some target has not exactly one predecessor. |
| `Liveness.LivenessAnalysis.LiveAfter` | hir-analysis/src/liveness.rs:417-589 | What is live after one instruction: over its edges, or at the next instruction one step further away; fails exactly when a branch with several targets has a critical edge. |
| `Liveness.LivenessAnalysis.PassArguments` | hir-analysis/src/liveness.rs:487-498 | Exactly the set after passing the arguments in turn: an argument is used if the parameter that takes it is live by then, and nothing else changes. |
| `Liveness.LivenessAnalysis.UnionOf` | hir-analysis/src/liveness.rs:260-269 | The union keeps the smaller distance of each value. |
| `Liveness.LivenessAnalysis.IsLoopExit` | hir-analysis/src/liveness.rs:509-516 | Which edges count as leaving a loop. |
| `Liveness.LiveNext` | hir-analysis/src/liveness.rs:412-670 | Soundness, completeness of the blocks visited once and twice, and the growth of headers hold after every visit. |
| `Liveness.LiveRank` | hir-analysis/src/liveness.rs:645-666 | A visit that asks for another one lowers the measure. |
| `Liveness.LiveOutKnown` | hir-analysis/src/liveness.rs:544-618 | After a point, a use that lies ahead of one of the next points on a forward path is known, at no more than its distance; only parameters of the block entered are not live. |
| `Liveness.OneRetreatKnown` | hir-analysis/src/liveness.rs:645-655 | A use beyond one retreating edge is known where the path starts, at no more than its distance, if the blocks up to that edge are visited again; the target of the edge, for an edge of a block to itself its source, always is. |
| `Liveness.ExactWithoutLoops` | hir-analysis/src/liveness.rs:371-671 | If the reachable part of the function has no cycle, a value is recorded as live exactly where a use at finite distance lies ahead, and its distance is that of the nearest use. |
| `Liveness.OutExactWithoutLoops` | hir-analysis/src/liveness.rs:371-671 | There the same holds after every point: what is recorded is the distance of the nearest use beyond it. |
| `Liveness.AcyclicNoRetreat` | hir-analysis/src/dominance.rs:263-327 | In such a function every edge goes forward in the order in which blocks are visited. |
| `Liveness.PenaltyIffLeaves` | hir-analysis/src/liveness.rs:36-40 | The penalty applies to an edge of a block that can be analysed if and only if some natural loop holds its source and not its target. |
| `Liveness.NeverSideBySide` | hir-analysis/src/liveness.rs:509-516 | Such an edge never goes from a loop into a loop beside it, the one case in which the test of the code would miss that a loop is left. |
| `Pipeline.ValidBranchesLast` | hir-analysis/src/validation/block.rs:134-239 | In a valid function only last instructions branch, as `ExactWithoutLoops` asks. |
| `Pipeline.SplitMakesAnalyzable` | hir-analysis/src/liveness.rs:538-547 | After the splitting pass on a valid function whose switches have an arm, no reachable block makes liveness give up. |
| `Layout.NextMultipleOf` | hir-type/src/layout.rs:584-593 | The smallest multiple of `m` that is not below `n`. |
| `Layout.StrideInBits` | hir-type/src/layout.rs:445-456 | Padding elements in bits, as sizes do, and in bytes, as `getelementptr` does, gives the same distance. |
| `Layout.ArraySize` | hir-type/src/layout.rs:445-456 | An array takes a stride for every element but the last. |
| `Layout.NewWithRepr` | hir-type/src/lib.rs:432-512 | The layout, or a failure exactly when the representation is violated, a size or offset exceeds 32 bits, an alignment is not a power of two, or there are more than 256 fields. |
| `Layout.PlaceTransparent` | hir-type/src/lib.rs:436-466 | Fields of a transparent struct; at most one may have a size. |
| `Layout.PlacePadded` | hir-type/src/lib.rs:467-509 | Fields in order, each at the next multiple of its alignment. |
| `Layout.NewIsBuilt` | hir-type/src/lib.rs:432-512 | A struct laid out from well-formed types is well-formed. |
| `Layout.FieldsInOrder` | hir-type/src/lib.rs:484-507 | Fields follow each other without overlap. |
| `Layout.PackedPlacement` | hir-type/src/lib.rs:340-350 | A field of a packed struct starts at the least offset not before the end of the previous one that is a multiple of its own alignment or of the requested one, whichever is smaller; the size is rounded up in the same way. |
| `Layout.PackedOneIsTight` | hir-type/src/lib.rs:345-346 | With `Packed(1)` each offset is the sum of the sizes before it, and the size of the struct the sum of all. |
| `Layout.HighPackedKeepsLayout` | hir-type/src/lib.rs:349-350 | A packed alignment not below the default one gives the size and fields of the default representation, and fails exactly when that does. |
| `Layout.PackedAlignmentIff` | hir-type/src/lib.rs:349-350 | But the alignment of the struct is the default one if and only if the request equals it. |
| `Layout.DefaultPlacement` | hir-type/src/lib.rs:328-338 | With the default representation, or a requested alignment, fields start at the least multiple of their own alignment; a requested alignment above the default one rounds up the size only. |
| `Layout.TransparentIsField` | hir-type/src/lib.rs:352-354 | A transparent struct has the size and alignment of its only field with a size, which is at offset 0. |
| `Layout.TransparentFitsIff` | hir-type/src/lib.rs:434-466 | It is accepted if and only if there are at most 256 fields, none is too large, and at most one has a size. |
| `Layout.GetElementPtr` | hir/src/builder.rs:853-909 | The type and offset selected by the indices; fails on no indices, on an index out of bounds, on a type that has no components, and on an offset above 32 bits. |
| `Layout.SelectInside` | hir/src/builder.rs:860-894 | The selected component lies inside the aggregate, for every path of indices. |
| `Layout.SelectInOrder` | hir/src/builder.rs:860-894 | Of two paths that part at some step, the one with the smaller index selects the component that comes first; the two share no byte, however the paths go on. |
| `Layout.SelectFirst` | hir/src/builder.rs:848-852 | A path of zeros selects a component at offset 0. |
| `Layout.ElementsFill` | hir/src/builder.rs:860-877 | The last element of an array ends where the array does, and neighbouring elements are equally far apart, wherever the array is and whatever is selected inside them. |
| `Layout.SelectAlong` | hir/src/builder.rs:860-894 | Selecting along one path and then along another is selecting along both. |
| `Layout.SelectAligned` | hir/src/builder.rs:860-894 | Where all structs have the default representation or a raised alignment, the offset is a multiple of the alignment of the selected type. |
| `Layout.PackedMisaligns` | hir-type/src/lib.rs:340-351 | A packed struct puts a field where its type is not aligned, so the restriction is needed. |
| `Layout.LowAlignHasEffect` | hir-type/src/lib.rs:332-338 | The witness: a struct of one 32-bit field with requested alignment 2 is aligned to 2. |
| `Layout.LowAlignKeepsLayout` | hir-type/src/lib.rs:467-509 | A requested alignment not above the default one leaves size and fields of the struct as they are. |
| `Layout.AlignEffectIff` | hir-type/src/lib.rs:332-338 | The alignment of the struct is the one it is laid out with if and only if the request is not below the default; up to the default, the request leaves the alignment alone if and only if it equals the default. |
| `Layout.DefaultAlignment` | hir-type/src/lib.rs:521-529 | A struct with the default representation is aligned like its most aligned field. |

## Left out

- Liveness.LivenessAnalysis.Compute: promises no global fixpoint, because a block whose header changes is visited
  again, but not its predecessors. Nothing is claimed about uses reached only over two retreating edges, or over one
  through a block that is not visited again: one to which an edge retreats, without parameters and without a use ahead
  of its head on a forward path.
- Register pressure, chromatic number and the other queries on liveness tables: they only read the tables.
- Loops.LoopAnalysis.Compute: asks that the natural loops are nested, which only a branch from an unreachable block to a
  reachable one can prevent (`LoopTheory.ReachableLoopsNest`); the backward search does not filter such predecessors.
  Without it no result is right (`Loops.ForestNeedsNesting`), and nothing is said about what the search then does.
- Loops.LoopAnalysis.DiscoverLoopBlocks: asks the same.
- Loops.LoopAnalysis.DiscoverOne: asks the same.
- Widths of block numbers, RPO numbers and pre-order numbers (32 bits), and of `usize`: these are unbounded here.
  Distances, sizes, offsets and alignments are bounded as in the source.
- The order of blocks in the layout: the new block's place after its predecessor does not affect any analysis.
- Validation.FunctionValidator.Validate: naming conventions, coherence of the signature, the type rules of instructions
  other than branches, and the check of returned values against the signature are not modelled; they do not bear on
  the execution of branches.
- Validation.FunctionValidator.ValidateTypes: only the rules for branches.
- Validation.FunctionValidator.CheckTypes: only the rules for branches.
- What detached blocks contain, and the intrusive lists and arenas that hold blocks and instructions.
- Splitting an edge of a switch: the pass does not implement it; the model gives up, as the pass does.
- Edges named twice by one conditional branch: the pass counts them as one successor and leaves them alone, so the
  assertion of liveness may still fail there; `Split.SplitEnablesLiveness` says exactly when. Validation rejects
  them, and `Pipeline.SplitMakesAnalyzable` then rules the failure out.
- `Treeify`, `InlineBlocks`, `Type::split`, `to_raw_parts`, the emulator and inline assembly, global variables, data
  segments, naming rules, printing and diagnostics.
- Layout.GetElementPtr: takes the pointee type as a parameter, and does not model the instructions that are emitted to
  add the offset to the pointer.
