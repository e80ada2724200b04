/** Dominator paths over block graphs: the forward analysis whose fact is
    the path of dominating labels. A block appends its own label on entry,
    leaves the fact alone across its instructions, and hands the path to
    every successor. */
module BlockDominator {
  import opened Common
  import opened Lattices
  import opened BlockGraph
  import opened ForwardEngine
  import opened DominatorPaths

  /** `DominatorAnalysis`'s three handlers. */
  function DominatorAnalysis<E(!new), I(!new), X(!new)>(lang: Language<E, X>): (a: ForwardAnalysis<E, I, X, Path<Label>>)
    ensures forall g, here, inst, f :: a.analyzeInstruction(g, here, inst, f) == (f, None)
    ensures forall g, here, x, f :: a.analyzeExit(g, here, x, f).Done?
  {
    ForwardAnalysis(
      (g, here, e, f) => WithLabel(f, lang.labelOf(e)),
      (g, here, inst, f) => (f, None),
      (g, here, x, f) => Done(Distributed(lang.successorsOf(x), f)))
  }

  /** No instruction changes the path. */
  lemma {:induction false} DominatorTransfer<E(!new), I(!new), X(!new)>(lang: Language<E, X>, g: Graph<E, I, X>, here: Label,
                                                      fact: Path<Label>, code: seq<I>)
    ensures Transfer(DominatorAnalysis(lang), g, here, fact, code) == fact
    decreases |code|
  {
    if code != [] {
      DominatorTransfer(lang, g, here, fact, code[1..]);
    }
  }

  /** The block at `l` sends every successor the incoming path (or the empty
      path) with the block's own label appended, and needs one unit of fuel
      per instruction plus one. */
  lemma DominatorBlockOutput<E(!new), I(!new), X(!new)>(lang: Language<E, X>, g: Graph<E, I, X>, l: Label,
                                                         fact: Path<Label>, fuel: nat, corrected: bool)
    requires l in g.blocks && fuel > |g.blocks[l].code|
    ensures var b := g.blocks[l];
      ForwardBlock(DominatorAnalysis(lang), g, l, fact, fuel, corrected) ==
      Ok(Distributed(BlockSuccessors(lang, b), WithLabel(fact, BlockLabel(lang, b))))
  {
    var a := DominatorAnalysis<E, I, X>(lang);
    var b := g.blocks[l];
    var entered := WithLabel(fact, lang.labelOf(b.entry));
    DominatorTransfer(lang, g, l, entered, b.code[0..]);
    NeverRewritesQuiet(a, g, l, entered, b.code[0..]);
    RunWithoutRewrites(a, g, l, entered, b.code, b.exit, 0, fuel, corrected);
  }
}
