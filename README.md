# gbcc dataflow core in Dafny

This project models the dataflow engine of gbcc, a small compiler
experiment written in Rust. The engine is a generic fixed-point solver:
a client supplies a lattice of facts and per-instruction transfer
functions, and the engine propagates facts until nothing changes. The
client may also ask to rewrite the code while it is being analysed.

The repository has two versions of the engine, and both are modelled.

**Block engines** (`src/dataflow`):
- Graphs are maps from block labels to basic blocks. Each block has an
  entry marker, straight-line code and an exit.
- The post-order traversal seeds a worklist.
- The forward engine runs a block's entry, instructions and exit through
  the client. Block-local rewrites are applied as it goes, and the
  block's output facts are joined into its successors.
- The backward engine does the same from exit to entry and joins into
  the block's direct predecessors.
- The dominator analysis keeps, for every block, the path of labels that
  dominate it.

**Per-instruction engine** (`src/pc`):
- A label is a (region, index) pair, and every instruction has a label.
- A region node is either an instruction or a forward to the entry of
  another region.
- The fact base is one row of facts per region.
- `forward_analyze` follows fallthrough paths and keeps jump targets in
  a working set. Its clients are a dominator analysis and constant
  propagation for a small register machine.

**Older client** (`src/main.rs`): constant propagation written against an
earlier client API. Its lattice and its constant folding are modelled.

**How Rust constructs are modelled:**
- Traits become records of functions. The client's lattice is a
  `Lattice` (bottom plus a join that returns the new fact and the
  changed flag).
- Panics are `Outcome.Panic` with the reason.
- Loops whose termination depends on the client take an explicit step
  budget.
- Objects the source updates in place are classes whose methods are
  proved equal to specification functions. These are the pc `FactBase`
  and the two `ConstFact`s.

**What is proved:**
- Under stated lattice laws (`Lawful`: the changed flag is exact, a join
  holds what it joined, and keeps holding it), the forward block engine,
  the backward block engine seeded with `bottom`
  (`BackwardAnalyzeFromBottom`) and the corrected per-instruction engine
  end with every reachable block or visited instruction stable: its
  output is already held by its neighbours' facts. The backward engine
  as written never succeeds, and the per-instruction engine as written
  need not end stable (see Findings).
- Each kind of rewrite a client may ask for is followed through the
  block loops: what is analysed next and from which fact.
- The block graph's post-order traversal lists exactly the reachable
  labels, without duplicates, in post-order. The pc traversal is proved
  only to end with its start and to list labels that forward to distinct
  instructions.
- Source defects are exhibited with concrete inputs, each next to a
  corrected definition with its property proved (see Findings).

Modules, one file each:
- `Common`, `Lattices`, `Worklist`: shared definitions.
- `BlockGraph`, `ForwardEngine`, `BackwardEngine`, `DominatorPaths`,
  `BlockDominator`: the block engines.
- `PcLabels`, `PcGraph`, `PcFactBase`, `PcEngine`, `PcDominator`,
  `PcConstants`: the per-instruction engine and its clients.
- `RiscConstants`: the older client in `main.rs`.

## Model

| member | source | states |
|---|---|---|
| Lattices.JoinKeepsAbsorbed | src/dataflow/analysis.rs:149-151 | joining into one slot (a missing one starting at `bottom`) keeps every other slot's absorption of a block's output, given the join keeps what it absorbed |
| Lattices.UnchangedJoin | src/dataflow/analysis.rs:149-154 | a join that reports no change leaves the slot's fact as it was, given the changed flag is exact |
| Worklist.JoinNeighbours | src/dataflow/analysis.rs:148-159 | the successor loop:<br>- panics with a missing key exactly when the block's output lacks a neighbour (for a total join);<br>- adds a slot for each neighbour and leaves other slots alone;<br>- only appends neighbours to the worklist, with no duplicates;<br>- under the laws every neighbour's fact absorbs what it was sent, every neighbour whose fact changed is queued, and earlier absorptions survive |
| Worklist.JoinOne | src/dataflow/analysis.rs:149-158 | one turn of the neighbour loop keeps the loop invariant and only panics on a missing output fact |
| Worklist.JoinOneKeeps | src/dataflow/analysis.rs:149-158 | joining the `k`-th neighbour and queueing it when changed (unless already queued) extends the loop invariant to `k + 1` |
| Worklist.JoinOneLawful | src/dataflow/analysis.rs:151-158 | under the lattice laws one join makes the neighbour absorb its output, queues it if its fact changed, and keeps every earlier absorption |
| BlockGraph.Index | src/dataflow/graph.rs:95-100 | `graph[label]` returns the stored block and panics with a missing key exactly when the label is absent |
| BlockGraph.FromBlocks | src/dataflow/graph.rs:59-66 | the map holds exactly the labels of the given blocks; each entry is stored under its own label and is the last block given with that label |
| BlockGraph.ReachableStep | src/dataflow/graph.rs:78-79 | reachability extends along a successor edge |
| BlockGraph.ClosedHoldsReachable | src/dataflow/graph.rs:75-80 | a set closed under successors contains everything reachable from its members |
| BlockGraph.Go | src/dataflow/graph.rs:69-82 | the recursive `go`:<br>- on success `current` is visited;<br>- only labels reachable from `current` were added to `visited`;<br>- labels were appended in post-order, each once;<br>- a newly visited `current` is appended last;<br>- a failure means a reachable label with no block |
| BlockGraph.GoSuccessors | src/dataflow/graph.rs:78-80 | the `for` loop over `current`'s successors visits every successor and keeps the traversal invariant |
| BlockGraph.VisitSuccessor | src/dataflow/graph.rs:78-79 | one recursive call on the `k`-th successor keeps the traversal invariant with one more successor visited |
| BlockGraph.GrewTransitive | src/dataflow/graph.rs:75-81 | the growth made by the recursive call on a successor composes with the growth so far |
| BlockGraph.ListCurrent | src/dataflow/graph.rs:81 | pushing `current` once all its successors are visited keeps the output duplicate-free, finished and in post-order |
| BlockGraph.PostOrderTraversal | src/dataflow/graph.rs:68-88 | succeeds exactly when every reachable label has a block, and otherwise panics with a missing key. The output:<br>- lists exactly the labels reachable from `entry`, each once, with `entry` last;<br>- is in post-order: each successor comes earlier unless it leads back (a cycle) |
| ForwardEngine.DistributeFacts | src/dataflow/analysis.rs:101-107 | the loop builds the map in which exactly the exit's successors receive the fact |
| ForwardEngine.Distributed | src/dataflow/analysis.rs:101-107 | a label is in the map iff it is a successor, and its fact is the given one |
| ForwardEngine.SpliceOver | src/dataflow/analysis.rs:194-196 | `splice(index..index+n, insts)` panics exactly when the range passes the end; otherwise it overwrites those `n` places and leaves the rest |
| ForwardEngine.RunBlock | src/dataflow/analysis.rs:182-225 | the instruction and exit loops only panic for a sub-graph rewrite or, as written, an out-of-range splice; with `Multiple` replacing one instruction the splice never panics |
| ForwardEngine.NeverRewritesQuiet | src/dataflow/analysis.rs:182-209 | a client that never asks for a rewrite asks for none along any code from any fact |
| ForwardEngine.ForwardBlock | src/dataflow/analysis.rs:178-226 | `graph[label]`, `analyze_entry` and the block loops: a label without a block panics with a missing key, and otherwise the only panics are a sub-graph rewrite or, as written, an out-of-range splice |
| ForwardEngine.RunWithoutRewrites | src/dataflow/analysis.rs:182-213 | while the client asks for no rewrite, the block's output is its exit handler applied to the instructions' fact in order, from the current index on |
| ForwardEngine.ReplaceReanalysesIndex | src/dataflow/analysis.rs:186-193 | after `Single(inst)` the same index is analysed again, now holding `inst`, from the fact the handler left; the output is that of `inst` followed by the rest of the code |
| ForwardEngine.ManyResumesAtFirst | src/dataflow/analysis.rs:52-53 | with `Multiple(insts)` replacing the current instruction only, the loop resumes at the first inserted instruction and the output is that of `insts` followed by the rest of the code |
| ForwardEngine.ManyOverwritesAsWritten | src/dataflow/analysis.rs:194-196 | as written, `Multiple(insts)` overwrites `\|insts\|` instructions, so the ones after the current one that it covers are never analysed |
| ForwardEngine.ManyOverrunPanics | src/dataflow/analysis.rs:194-196 | as written, `Multiple` bringing more instructions than remain from the index panics; replacing one instruction does not |
| ForwardEngine.ExtendAnalysesAppended | src/dataflow/analysis.rs:210-221 | `Extend(insts, x)` appends without resetting the index: only the appended instructions are analysed, from the fact at the exit, and then `x` is offered |
| ForwardEngine.FixedPointForwardBlock | src/dataflow/analysis.rs:163-226 | panics with the "always have a fact" message exactly when the block has no fact, and otherwise returns the block's transfer from that fact |
| ForwardEngine.ProcessKeepsInvariant | src/dataflow/analysis.rs:140-160 | analysing a popped block and joining its output into its successors keeps the driver invariant |
| ForwardEngine.ProcessKeepsStable | src/dataflow/analysis.rs:146-159 | under the laws, every reachable block not queued stays stable after one block is processed |
| ForwardEngine.ForwardStep | src/dataflow/analysis.rs:140-160 | one pop of the worklist keeps the driver invariant |
| ForwardEngine.FixedPointForwardGraph | src/dataflow/analysis.rs:128-161 | panics with a missing key when some reachable label has no block. On success:<br>- keys are only added, and only reachable labels are added;<br>- every reachable label has a fact;<br>- under the laws every reachable block is stable, meaning each successor's fact already holds what the block sends it.<br>With `Multiple` replacing the current instruction and a total join, it never panics on a splice |
| ForwardEngine.ForwardAnalyze | src/dataflow/analysis.rs:109-126 | starting from the entry fact, the facts are exactly those of the reachable labels and, under the laws, every reachable block is stable |
| ForwardEngine.ForwardAnalyzeCorrected | src/dataflow/analysis.rs:109-126 | the same, with `Multiple` replacing the current instruction only; with a total join it never panics on a splice |
| BackwardEngine.Predecessors | src/dataflow/backward_analysis.rs:179 | `p` is a direct predecessor of `l` iff `p` is a block whose successors include `l` |
| BackwardEngine.DirectPredecessors | src/dataflow/backward_analysis.rs:179 | the loop lists each direct predecessor exactly once |
| BlockGraph.SpliceOne | src/dataflow/backward_analysis.rs:243-245 | `splice(index..index+1, insts)` replaces one instruction by the list and keeps the rest in place |
| BackwardEngine.RunExits | src/dataflow/backward_analysis.rs:211-229 | the exit-rewrite loop only panics for a sub-graph rewrite |
| BackwardEngine.RunCode | src/dataflow/backward_analysis.rs:231-258 | the backward instruction loop only panics for a sub-graph rewrite |
| BackwardEngine.BackwardBlock | src/dataflow/backward_analysis.rs:194-259 | a block's backward transfer panics only for a sub-graph rewrite, or with a missing key for a label that has no block |
| BackwardEngine.NeverRewritesQuietBack | src/dataflow/backward_analysis.rs:231-258 | a client that never asks for a rewrite asks for none along any code from any fact, walked from the end |
| BackwardEngine.RunCodeWithoutRewrites | src/dataflow/backward_analysis.rs:231-258 | while the client asks for no rewrite, the loop is the entry handler applied to the fact of the remaining instructions, from last to first |
| BackwardEngine.ReplaceReanalysesCounter | src/dataflow/backward_analysis.rs:232-242 | after `Single(inst)` the counter is kept, so `inst` is analysed next from the fact the handler left, then the instructions before it |
| BackwardEngine.ManyResumesAtLast | src/dataflow/backward_analysis.rs:232-245 | after `Multiple(insts)` the counter is kept, so the loop resumes at the last inserted instruction and walks `insts` backwards, then the instructions before them |
| BackwardEngine.ExtendGrowsCode | src/dataflow/backward_analysis.rs:211-229 | `Extend(insts, x)` appends `insts` and offers `x`; once the exit is settled, the instruction loop walks the grown code from its end, the appended instructions first |
| BackwardEngine.BlockWithoutRewrites | src/dataflow/backward_analysis.rs:194-259 | with a client that never rewrites, a block's output is entry ∘ instructions backwards ∘ exit |
| BackwardEngine.FixedPointBackwardBlock | src/dataflow/backward_analysis.rs:194-259 | panics with the "always have a fact" message exactly when the block has no fact, and otherwise returns the backward transfer |
| BackwardEngine.ProcessKeepsInvariant | src/dataflow/backward_analysis.rs:171-191 | analysing a popped block and joining into its predecessors keeps the driver invariant |
| BackwardEngine.ProcessKeepsStable | src/dataflow/backward_analysis.rs:177-190 | under the laws, every reachable block not queued stays stable after one block is processed |
| BackwardEngine.Reversed | src/dataflow/backward_analysis.rs:169 | `reverse` puts element `i` at position `len-1-i` |
| BackwardEngine.ReversedElems | src/dataflow/backward_analysis.rs:168-169 | reversing keeps the elements and their distinctness |
| BackwardEngine.BackwardStep | src/dataflow/backward_analysis.rs:171-191 | one pop keeps the invariant; it panics with the "always have a fact" message exactly when the popped block has no fact (for a total join) |
| BackwardEngine.FixedPointBackwardGraph | src/dataflow/backward_analysis.rs:158-192 | panics with a missing key on a reachable label with no block. When no reachable block has a fact, it panics with a missing fact. On success every reachable label has a fact and, under the laws, is stable against its predecessors |
| BackwardEngine.BackwardAnalyze | src/dataflow/backward_analysis.rs:147-156 | never succeeds. Starting from an empty fact base, the first block popped has no fact, so the run panics (or runs out of budget) |
| BackwardEngine.BottomFacts | src/dataflow/backward_analysis.rs:153 | every block gets `bottom` |
| BackwardEngine.BackwardAnalyzeFromBottom | src/dataflow/backward_analysis.rs:147-156 | seeded with `bottom` at every block, it never lacks a fact; on success every block has a fact and every reachable block is stable |
| DominatorPaths.Truncate | src/dataflow/dominator.rs:24-29 | the `for index` loop over `self` equals its recursive definition, including the out-of-range read of `other` |
| DominatorPaths.AsWrittenReportsPhantomChange | src/dataflow/dominator.rs:16-19 | joining `None` into `None` reports a change though nothing changed, so the as-written join breaks the exact-change law |
| DominatorPaths.TruncateAsWritten | src/dataflow/dominator.rs:24-29 | the loop as written from index `i`: it panics only with an index error; otherwise it gives a prefix of `self` at least `i` long and reports a change iff it shortened `self` |
| DominatorPaths.JoinAsWritten | src/dataflow/dominator.rs:15-33 | the join as written: `None` takes `other` and always reports a change; a panic needs two paths; a `Some` fact stays a `Some` prefix of itself, with the flag exact |
| DominatorPaths.AsWrittenLattice | src/dataflow/dominator.rs:11-33 | bottom is `None`, and the as-written join breaks the exact-change law |
| DominatorPaths.TruncateAsWrittenPanics | src/dataflow/dominator.rs:24-25 | the loop panics exactly when `other` is a strictly shorter prefix of `self`, and otherwise succeeds |
| DominatorPaths.AsWrittenPanicsOnShorterPrefix | src/dataflow/dominator.rs:21-30 | the as-written `Some`/`Some` join panics exactly on a strictly shorter prefix |
| DominatorPaths.CommonPrefix | src/dataflow/dominator.rs:24-29 | the truncation point is a common prefix that stops at the first difference or at an end |
| DominatorPaths.CommonPrefixLongest | src/dataflow/dominator.rs:24-29 | every common prefix is a prefix of it, so it is the longest |
| DominatorPaths.AsWrittenIsCommonPrefix | src/dataflow/dominator.rs:24-29 | when the loop does not panic it truncates to the longest common prefix, and reports a change iff it shortened `self` |
| DominatorPaths.JoinPaths | src/dataflow/dominator.rs:15-33 | the corrected join:<br>- `None` takes `other`, with a change reported only when that differs;<br>- `Some` with `None` is unchanged;<br>- `Some`/`Some` gives the longest common prefix;<br>- the flag is true iff the fact changed |
| DominatorPaths.PathLattice | src/dataflow/dominator.rs:11-13 | bottom is `None` |
| DominatorPaths.AsWrittenAgrees | src/dataflow/dominator.rs:15-33 | apart from `None`/`None`, every non-panicking as-written join equals the corrected one |
| DominatorPaths.PathLatticeLawful | src/dataflow/dominator.rs:15-33 | the corrected join never panics and satisfies the three laws |
| DominatorPaths.PathLatticeTransitive | src/dataflow/dominator.rs:15-33 | absorption in the path lattice is transitive |
| DominatorPaths.PathTop | src/pc/dominator.rs:16-18 | `Some([])` holds every path and `None` does not |
| DominatorPaths.WithLabel | src/dataflow/dominator.rs:46 | `get_or_insert(vec![]).push(l)` gives the old path (or the empty one) with `l` appended |
| BlockDominator.DominatorAnalysis | src/dataflow/dominator.rs:36-68 | the client's handlers: no instruction is rewritten or changes the path, and the exit handler always returns the output facts, never a rewrite |
| BlockDominator.DominatorTransfer | src/dataflow/dominator.rs:50-58 | no instruction changes the path |
| BlockDominator.DominatorBlockOutput | src/dataflow/dominator.rs:39-68 | a block sends each successor its incoming path extended with the block's own label |
| PcLabels.FallthroughOnly | src/pc/instruction.rs:39-44 | control passes only to the next pc |
| PcLabels.Conditional | src/pc/instruction.rs:46-51 | control passes to the next pc and to each given label, and nowhere else |
| PcLabels.Halt | src/pc/instruction.rs:53-58 | control passes nowhere |
| PcLabels.Goto | src/pc/instruction.rs:60-65 | control passes to each given label only, never to the next pc |
| PcLabels.SuccessorsBuilt | src/pc/instruction.rs:32-65 | every `Successors` value is built by `conditional` or `goto`; `fallthrough` and `halt` are their empty cases |
| PcGraph.NewGraph | src/pc/graph.rs:28-33 | one region numbered 0 whose entry is `ENTRY` and whose nodes are the instructions in order |
| PcGraph.GetNode | src/pc/graph.rs:79-81 | returns the node at the label, and panics with an index error exactly when the label is out of range |
| PcGraph.ForwardLabel | src/pc/graph.rs:55-60 | an instruction stays put; a region node forwards to index 0 of its region with "continue"; out of range panics |
| PcGraph.Forwarded | src/pc/graph.rs:43-53 | the bounded forwarding loop ends on an instruction, is the identity on instructions, and otherwise panics (index or loop limit) |
| PcGraph.ForwardCompletely | src/pc/graph.rs:43-53 | with `LABEL_FORWARD_LIMIT` steps, the result is an instruction label, and an instruction forwards to itself |
| PcGraph.ForwardLabelCompletely | src/pc/graph.rs:43-53 | the `for` loop equals the recursive definition |
| PcGraph.BackwardLabel | src/pc/graph.rs:39-41 | the region's entry, and a panic when the region does not exist |
| PcGraph.NodeExists | src/pc/graph.rs:90-92 | a panic iff the region is out of range; otherwise the region's `contains` (its own number and an index within its nodes) |
| PcGraph.ExistsIffInRange | src/pc/graph.rs:140-142 | in a graph whose regions carry their positions as numbers, a node exists iff its label is in range |
| PcGraph.NewGraphWellNumbered | src/pc/graph.rs:28-33 | a new graph numbers its one region by its position |
| PcGraph.GetInstruction | src/pc/graph.rs:83-88 | succeeds iff forwarding does, gives the instruction at the forwarded label, and the "can't happen" panic never happens |
| PcGraph.NextPcFrom | src/pc/graph.rs:62-77 | when `next_pc` returns, its label is an instruction |
| PcGraph.NextPc | src/pc/graph.rs:62-77 | the `loop` equals the recursive definition |
| PcGraph.NextPcWellNumbered | src/pc/graph.rs:62-77 | in a well-numbered graph `next_pc` is the forwarded next index. Past the last node of a region it panics |
| PcGraph.PcGo | src/pc/graph.rs:97-115 | the recursive `go`:<br>- the forwarded `current` ends up seen;<br>- the output grows iff that forwarded label was not seen before, and then ends with `current` unforwarded;<br>- every added label forwards to a label not seen before, and no two listed labels forward to the same place |
| PcGraph.ExtendedTransitive | src/pc/graph.rs:109-112 | the growth made by successive recursive calls composes |
| PcGraph.RecordCurrent | src/pc/graph.rs:114 | pushing `current` after its successors keeps the listed labels forwarding to distinct, seen places |
| PcGraph.PcPostOrderTraversal | src/pc/graph.rs:94-118 | on success the output is non-empty and ends with `start`; every label in it forwards, and to distinct instructions |
| PcFactBase.IndexTwo | src/pc/fact_base.rs:9-17 | succeeds iff the indexes differ and are both in range, giving the first mutably and the second shared; otherwise an index panic |
| PcFactBase.Put | src/pc/analysis.rs:32 | storing through a slot changes that slot only |
| PcFactBase.BottomFacts | src/pc/fact_base.rs:20-27 | one `bottom` per node of every region, shaped like the graph |
| PcFactBase.Get | src/pc/fact_base.rs:29-33 | the stored fact iff the region and slot exist |
| PcFactBase.GetMut | src/pc/fact_base.rs:35-39 | a slot iff the region and slot exist |
| PcFactBase.GetDisjoint | src/pc/fact_base.rs:41-58 | `None` iff either label has no slot. An index panic iff both labels are the same existing slot. Otherwise the first's slot and the second's fact |
| PcFactBase.JoinAt | src/pc/analysis.rs:55 | joining into a slot stores the joined fact there and returns the join's flag; a panicking join panics |
| PcFactBase.JoinAtLawful | src/pc/analysis.rs:55 | under the laws the slot then holds what was joined, the flag is true iff the slot changed, and every earlier absorption survives |
| PcFactBase.FactBase.constructor | src/pc/fact_base.rs:20-27 | the new object holds `bottom` everywhere |
| PcFactBase.FactBase.Store | src/pc/analysis.rs:32 | `*get_mut(l).unwrap() = f` changes exactly that slot |
| PcFactBase.FactBase.Join | src/pc/analysis.rs:55 | an in-place join through a slot reference is `JoinAt` on the rows; a panic leaves the rows alone |
| PcFactBase.GetAfterStore | src/pc/fact_base.rs:29-33 | reading a slot back after a store gives the stored fact; other slots read as before |
| PcFactBase.AccessorsAgree | src/pc/fact_base.rs:29-58 | for different labels `get_disjoint` never panics and agrees with `get_mut` and `get` |
| PcEngine.FallThrough | src/pc/analysis.rs:54-60 | without a fallthrough the path ends. With one, the outgoing fact is joined into the fallthrough slot: the path moves there iff the join changed it, and ends otherwise |
| PcEngine.JumpJoin | src/pc/analysis.rs:62-68 | one jump:<br>- a target without a slot panics in `unwrap`;<br>- a `NoChange` jump to the current pc panics in `get_disjoint`;<br>- otherwise `NoChange` joins the fact stored at the (possibly advanced) pc and `Fact` joins the new fact |
| PcEngine.Jumps | src/pc/analysis.rs:62-69 | the jump loop keeps the rows' shape and only adds to the working set |
| PcEngine.Fetch | src/pc/analysis.rs:46-50 | the slots read for a round: the pc's fact and its `next_pc` slot. As written, or for an instruction that falls through, a failing `next_pc` fails the round; corrected, an instruction that does not fall through reads only its own slot |
| PcEngine.Step | src/pc/analysis.rs:43-100 | one round of the `'path` loop. On success:<br>- the pc's instruction and slot exist, and so does its `next_pc` whenever it falls through or the engine is as written;<br>- the rows keep their shape;<br>- the working set only loses the pc |
| PcEngine.GrowsTransitive | src/pc/analysis.rs:55-86 | slots that only move up the lattice compose |
| PcEngine.SettledKept | src/pc/analysis.rs:55-86 | a settled label stays settled while its own fact is unchanged and the others only grow |
| PcEngine.JumpsLawful | src/pc/analysis.rs:62-69 | under the laws:<br>- every jump target absorbs what was sent;<br>- slots only grow;<br>- every changed slot is queued, except the current pc when changed self-jumps are not requeued;<br>- `NoChange` leaves the pc's own fact |
| PcEngine.StepLawful | src/pc/analysis.rs:43-100 | under the laws a round only grows slots, and every changed slot is queued or is the next pc on the path (or is the unrequeued self-jump). With transitive absorption, a pc whose fact did not change is settled |
| PcEngine.StepKeepsInvariant | src/pc/analysis.rs:38-101 | a round from a waiting pc keeps the engine invariant, with the pc now visited |
| PcEngine.JoinJumps | src/pc/analysis.rs:62-69 | the `for` loop over the jumps, in place on the fact base, equals `Jumps` |
| PcEngine.ProcessPc | src/pc/analysis.rs:43-100 | one round, in place on the fact base, equals `Step` |
| PcEngine.Drive | src/pc/analysis.rs:31-102 | the driver. An empty program panics in `unwrap`. On success:<br>- the rows are shaped like the graph and the entry was visited;<br>- under the laws, facts only grew from the initial rows and unvisited slots are still `bottom`;<br>- if changed jump targets are always requeued, every visited instruction is settled |
| PcEngine.ForwardAnalyze | src/pc/analysis.rs:25-105 | `forward_analyze` as written: an empty program panics, the rows keep the graph's shape, facts only grow from `top` at the entry and `bottom` elsewhere, and unvisited slots stay `bottom` |
| PcEngine.ForwardAnalyzeCorrected | src/pc/analysis.rs:25-105 | the engine with changed self-jumps requeued and `next_pc` computed only on fallthrough: facts only grow from the initial rows and, under the laws and transitive absorption, every visited instruction is settled, meaning its fallthrough and every jump target already hold its outgoing fact |
| PcEngine.SelfJumpLeftUnsettled | src/pc/analysis.rs:86-88 | a self-jumping entry whose fact rises from 0 to 1 is not requeued, so the run stops with the entry unsettled. With requeueing the entry waits again |
| PcEngine.LastInstructionPanics | src/pc/analysis.rs:48 | as written, a round at the last instruction of a region panics with an index error, whatever the instruction, because `next_pc` runs past the region |
| PcEngine.HaltNeedsNoNextPc | src/pc/analysis.rs:46-48 | corrected, a round at an instruction that does not fall through does not depend on `next_pc` |
| PcEngine.HaltAtEndPanics | src/pc/analysis.rs:48 | a `Ret` at the end of a two-instruction program panics as written; corrected, the round ends the path and leaves the facts alone |
| PcDominator.DominatorAnalysis | src/pc/dominator.rs:44-54 | `analyze` always returns `Fact` with the incoming path (or the empty one) extended by the current label |
| PcDominator.AsWrittenDominatorLattice | src/pc/dominator.rs:12-18 | as written, `top()` is `bottom()`: both `None` |
| PcDominator.DominatorLattice | src/pc/dominator.rs:20-38 | the corrected join with `Some([])` as top |
| PcDominator.TopIsTop | src/pc/dominator.rs:16-18 | the as-written top is not top (joining a path into it changes it); the corrected one is |
| PcDominator.AbsorbsIsPrefix | src/pc/dominator.rs:20-38 | a path holds another iff the other is `None`, or the first is a prefix of it |
| PcDominator.SettledDominators | src/pc/dominator.rs:44-54 | a settled label hands each successor a prefix of its own extended path |
| PcDominator.Dominators | src/pc/analysis.rs:25-105 | the corrected engine with the dominator analysis. An empty program panics. Unvisited labels have no path. Every visited label's successors have a path that is a prefix of the label's own path extended by the label |
| PcConstants.RiscSuccessors | src/pc/test.rs:31-43 | `Goto` only jumps, `JumpZ` falls through and jumps, `Ret` halts, and the rest fall through |
| PcConstants.Pair | src/pc/test.rs:53-57 | the fact that knows only `v` |
| PcConstants.Merge | src/pc/test.rs:70-76 | a right-biased union: `other`'s entries win |
| PcConstants.Lift | src/pc/test.rs:59-68 | corrected `lift`: a fact on the destination alone, the folded constant when both sources are constants and top otherwise |
| PcConstants.LiftAsWritten | src/pc/test.rs:59-68 | `lift` as written: a fact on the destination at most; it is empty exactly when both sources are top; otherwise the destination is a constant iff both sources are |
| PcConstants.Plus | src/pc/test.rs:133 | the `+` closure on unbounded integers, undone by `-` |
| PcConstants.Less | src/pc/test.rs:139 | the `<` closure: 1 iff the first is less, 0 otherwise |
| PcConstants.AnalyzeAsWritten | src/pc/test.rs:123-147 | `analyze` as written: only `Load`/`Add`/`Lt` produce a fact; `Load`'s fact knows only its destination; `Add`/`Lt` keep every other variable, and with two top sources hand on the fact unchanged |
| PcConstants.Analyze | src/pc/test.rs:123-147 | the corrected `analyze`: only `Load`/`Add`/`Lt` produce a fact, and it knows every variable of the incoming fact plus the destination |
| PcConstants.LiftAgrees | src/pc/test.rs:63-67 | the corrected `lift` differs from the source's only when both sources are top, where the source gives the empty fact |
| PcConstants.AnalyzeKeepsOthers | src/pc/test.rs:130-145 | the corrected `analyze`:<br>- only `Load`/`Add`/`Lt` produce a fact, and it keeps every other variable;<br>- `Load` makes its destination its constant;<br>- `Add`/`Lt` make the destination the folded constant (`+`, or `<` as 1/0) when both sources are constants, and top otherwise |
| PcConstants.ConstantPropProgram | src/pc/test.rs:153-163 | the test program: nine instructions ending in `Ret` at 0x08 |
| PcConstants.ConstantPropRetPanics | src/pc/test.rs:153-168 | as written, the round at the `Ret` at 0x08 panics with an index error; corrected, it ends the path without changing the facts |
| PcConstants.AsWrittenForgets | src/pc/test.rs:131 | as written, `Load` hands on only its own variable, and an `Add` of two tops leaves the destination's stale constant; the corrected analysis does neither |
| PcConstants.JoinVars | src/pc/test.rs:94-113 | the keys are the union. Keys of `self` alone are kept. The flag is true iff some entry of `other` is new to `self`, or meets a different constant in `self` |
| PcConstants.ConstFact.constructor | src/pc/test.rs:45-50 | holds the given entries |
| PcConstants.ConstFact.Join | src/pc/test.rs:91-116 | the loop over `other`'s entries, in any order, leaves `JoinVars`'s fact and flag |
| PcConstants.ConstLattice | src/pc/test.rs:80-84 | bottom is the empty fact |
| PcConstants.AbsorbsVars | src/pc/test.rs:94-113 | a fact holds another iff every variable the other knows is known to it as top or as the same constant |
| PcConstants.ConstLatticeLawful | src/pc/test.rs:91-116 | the join never panics, satisfies the laws and is transitive; joining a fact with itself reports no change |
| PcConstants.ConstAnalysis | src/pc/test.rs:31-147 | the client record: its successors are `Risc::successors` (lines 31-43), and its `analyze` field is the corrected `Analyze` (lines 122-147), whose behaviour `AnalyzeKeepsOthers` states |
| PcConstants.ConstPcLattice | src/pc/test.rs:86-89 | `top()` is the empty fact, as the source's comment admits |
| PcConstants.PropagateConstants | src/pc/analysis.rs:25-105 | running the corrected engine on constant propagation: an empty program panics, unvisited slots stay empty, and every visited instruction is settled |
| RiscConstants.RiscLabel | src/main.rs:41-46 | only `RISC::Label` has a label, its own |
| RiscConstants.RiscSuccessors | src/main.rs:48-55 | `Cond` has both targets, `Jump` its target, `Ret` none, and the others `None` |
| RiscConstants.OneRole | src/main.rs:41-55 | no instruction both starts and ends a block; the middle ones are exactly `Load` and `Arith` |
| RiscConstants.JoinVars | src/main.rs:95-114 | the keys are the union. Keys of `self` alone are kept. The flag is true iff some joined entry differs from what `self` had |
| RiscConstants.ConstFact.constructor | src/main.rs:70-72 | `new()` is empty |
| RiscConstants.ConstFact.Get | src/main.rs:78-80 | an entry iff the variable is present |
| RiscConstants.ConstFact.GetConst | src/main.rs:82-87 | a constant iff the entry is `Elem` |
| RiscConstants.ConstFact.Set | src/main.rs:74-76 | afterwards `get_const(v) == Some(c)` and `get(v) == Some(Elem(c))`; other variables read as before |
| RiscConstants.ConstFact.Join | src/main.rs:95-114 | the loop over `other`'s entries, in any order, leaves `JoinVars`'s fact and flag |
| RiscConstants.ConstLattice | src/main.rs:91-93 | bottom is the empty fact |
| RiscConstants.AbsorbsVars | src/main.rs:97-105 | a fact holds another iff every variable the other knows is known to it as `Top` or as the same constant |
| RiscConstants.ConstLatticeLawful | src/main.rs:95-114 | the join never panics, reports exactly when it inserted or altered an entry, satisfies the laws, is transitive, and joining a fact with itself reports no change |
| RiscConstants.BitAnd | src/main.rs:142 | `&` is at most each operand |
| RiscConstants.BitOr | src/main.rs:143 | `\|` is at least each operand |
| RiscConstants.BitOrBelow | src/main.rs:143 | `\|` of two `n`-bit numbers has `n` bits, so it stays a `usize` |
| RiscConstants.Fold | src/main.rs:139-144 | `&` and `\|` never panic and are bitwise |
| RiscConstants.FoldArithLaws | src/main.rs:140-141 | folded `+` and `-` undo each other. `+` panics exactly past the largest `usize`, and `-` exactly below zero |
| RiscConstants.FoldAndOr | src/main.rs:142-143 | folding `a & (a \| b)` gives `a` |
| RiscConstants.AnalyzeAsWritten | src/main.rs:120-161 | `analyze` as written: a load records its constant, and nothing else changes the fact, so an unfolded computation keeps its destination's entry |
| RiscConstants.Analyze | src/main.rs:120-161 | the corrected `analyze`: variables other than a load's or computation's destination keep their entries; a load records its constant; a computation that is not replaced makes its destination `Top` |
| RiscConstants.AnalyzeFolds | src/main.rs:120-161 | only a foldable `Arith` is replaced, by `Load(dst, folded)`, and only an overflowing fold panics. `Load` records its constant and asks for nothing. Labels and block ends change nothing |
| RiscConstants.ComputeOutgoing | src/main.rs:134-149 | after an `Arith` and its replacement: the destination holds the folded constant when both sources are constants, and top otherwise; other variables are untouched |
| RiscConstants.AsWrittenKeepsStaleConstant | src/main.rs:134-149 | as written, `x0 := x1 + x2` with unknown sources leaves `x0`'s old constant 5; the corrected analysis makes `x0` top |

## Left out

- Rust traits and generics are records of functions. The clients'
  `&mut self` state is not modelled: every client in the repository is
  stateless.
- Hash-map iteration order is not modelled:
  - the pc working-set pick at `src/pc/analysis.rs:38` is an arbitrary
    element;
  - the `join` loops over `other`'s entries are proved correct for any
    order.
- Termination of loops is not modelled. Each takes a step budget and
  returns `OutOfFuel` when it runs out, which the source never does:
  - the rewrite loops of a block and the exit loop, which depend on the
    client (`RunBlock`, `RunExits`, `RunCode`);
  - the block worklist loops (`fuel` of `FixedPointForwardGraph` and
    `FixedPointBackwardGraph`);
  - the pc path and working-set loops, and the `next_pc` loop
    (`pcFuel` of `NextPcFrom`).
- Sub-graph rewrites and pc `Single`/`Many` rewrites are only panics in
  the source and are modelled as panics.
- The definition of `direct_predecessors` is not among the modelled
  files, so the model defines it as the blocks whose exit lists the
  label, each once, in any order.
- `src/pc/lattice.rs` is not part of this model. The pc lattice is the
  block lattice plus the `top()` the engine and its clients use.
- `Graph::start` (`src/pc/graph.rs:35-37`) is unused and not modelled.
- The `Debug` impls, `main()`, the `#[test]` functions, `dbg!` and
  `println!` are presentation and are not modelled.
- The old client API in `src/main.rs` (its `Analyze` token) is modelled
  as a function from the fact and the instruction to the new fact and
  the replacement.
- PcConstants.Plus: `isize` overflow of `+` in `src/pc/test.rs` is not
  modelled; constants are unbounded integers.
- RiscConstants.Fold: models the debug-build overflow panics of `usize`
  `+` and `-`; release-build wrap-around is not modelled.
- PcGraph.PcPostOrderTraversal: states that the output ends with
  `start` and that its labels forward to distinct instructions. It does
  not state the post-order itself or that every reachable instruction
  is listed. The engine does not use this traversal.
- PcEngine.ForwardAnalyze: does not state that visited instructions are
  settled, because as written they need not be, and as written it panics
  at the last instruction of a region (see Findings).
  `ForwardAnalyzeCorrected` states it.
- BackwardEngine.BackwardAnalyze: states only that it never succeeds,
  because that is all the code as written does (see Findings).

## Findings

| source | as written | input that shows it | evidently intended | confidence | as-written member | corrected member |
|---|---|---|---|---|---|---|
| src/dataflow/dominator.rs:16-19 | joining into `None` copies `other` and always returns `true` | `None` joined with `None` reports a change although the fact stayed `None`, so the join breaks the exact-change law the engines' stability proofs rely on; no client in the repository sends `None`, so no run is shown to misbehave | report a change only when the fact changed | high, not executed | DominatorPaths.AsWrittenReportsPhantomChange | DominatorPaths.JoinPaths |
| src/dataflow/dominator.rs:24-25 | the `Some`/`Some` loop indexes `other` up to `self`'s length | `self = [L0, L1]`, `other = [L0]` reads `other[1]` and panics | truncate to the longest common prefix | high, not executed | DominatorPaths.AsWrittenPanicsOnShorterPrefix | DominatorPaths.PathLatticeLawful |
| src/pc/dominator.rs:29-30 | the same loop in the pc lattice | `self = [L0, L1]`, `other = [L0]` panics | truncate to the longest common prefix | high, not executed | DominatorPaths.TruncateAsWrittenPanics | DominatorPaths.PathLatticeLawful |
| src/pc/dominator.rs:16-18 | `top()` is `bottom()`, the `None` path | joining `Some([L])` into the entry's `top()` changes it, so a back edge rewrites the entry's dominators | `Some([])`, which holds every path | medium, not executed | PcDominator.TopIsTop | PcDominator.DominatorLattice |
| src/dataflow/backward_analysis.rs:153-154 | the fact base starts empty and the block driver `expect`s a fact | any graph: the first block popped has no fact and the run panics | seed the blocks with `bottom` | high, not executed | BackwardEngine.BackwardAnalyze | BackwardEngine.BackwardAnalyzeFromBottom |
| src/pc/analysis.rs:86-88 | a changed jump target is requeued only if it is not the current pc | entry `Goto(ENTRY)` with an analysis sending its fact plus one: the entry rises from 0 to 1, is not requeued, and the run ends unsettled | requeue every changed target | medium, not executed | PcEngine.SelfJumpLeftUnsettled | PcEngine.ForwardAnalyzeCorrected |
| src/pc/analysis.rs:48 | `next_pc` is computed before the successors are looked at; it forwards the next index, whose `get_node` indexes past the region's last node | the test program's `Ret` at 0x08, or any program whose last instruction is reached | compute `next_pc` only for an instruction that falls through | high, not executed | PcConstants.ConstantPropRetPanics | PcEngine.HaltNeedsNoNextPc |
| src/dataflow/analysis.rs:194-196 | `Multiple(insts)` is spliced over `index..index + insts.len()` | a one-instruction block whose handler asks for `Multiple([x, y])` panics; in `[a, b, c]` replacing `a` by `[x, y]` drops `b` | replace the current instruction only, as the comment at `analysis.rs:52-53` and the backward engine do | high, not executed | ForwardEngine.ManyOverrunPanics | ForwardEngine.ManyResumesAtFirst |
| src/pc/test.rs:65 | two top sources give `bottom`, so `merge` keeps the destination's entry | `{x0 ↦ 5, x1 ↦ top, x2 ↦ top}` then `x0 := x1 + x2` leaves `x0 ↦ 5` | a top source makes the destination top | high, not executed | PcConstants.AsWrittenForgets | PcConstants.AnalyzeKeepsOthers |
| src/pc/test.rs:131 | `Load` returns the single-entry fact | `{x0 ↦ 7}` then `x1 := 1` gives `{x1 ↦ 1}`, forgetting `x0` | merge the loaded entry into the fact, as `Add` and `Lt` do | high, not executed | PcConstants.AsWrittenForgets | PcConstants.AnalyzeKeepsOthers |
| src/main.rs:134-149 | an `Arith` whose sources are not both constants changes nothing | `{x0 ↦ 5, x1 ↦ Top, x2 ↦ Top}` then `x0 := x1 + x2` leaves `x0 ↦ 5` | make the destination `Top` | high, not executed | RiscConstants.AsWrittenKeepsStaleConstant | RiscConstants.ComputeOutgoing |
