/** The backward worklist engine over block graphs: each block is analysed
    from its exit back to its entry, the client may rewrite the exit and the
    instructions on the way, and the entry handler's per-predecessor output
    is joined into the facts of the block's direct predecessors. */
module BackwardEngine {
  import opened Common
  import opened Lattices
  import opened BlockGraph
  import opened Worklist

  /** What the instruction handler may ask for: replace the instruction by one
      (`Single`) or several (`Multiple`), or by a sub-graph (`Graph`). */
  datatype RewriteInstructionBackward<E, I, X> =
    | Replace(inst: I)
    | ReplaceMany(insts: seq<I>)
    | ReplaceWithGraph(jump: X, subGraph: Graph<E, I, X>, rest: E)

  /** What the exit handler may ask for: a new exit (`Single`), extra
      instructions and a new exit (`Extend`), or a sub-graph (`Graph`). */
  datatype RewriteExitBackward<E, I, X> =
    | ReplaceExit(exit: X)
    | Extend(insts: seq<I>, exit: X)
    | ExitWithGraph(jump: X, subGraph: Graph<E, I, X>)

  /** The client's three handlers. The exit and instruction handlers update
      the fact they are lent and may ask for a rewrite; the entry handler
      turns the final fact into one fact per predecessor. */
  datatype BackwardAnalysis<!E, !I, !X, !F> = BackwardAnalysis(
    analyzeExit: (Graph<E, I, X>, Label, X, F) -> (F, Option<RewriteExitBackward<E, I, X>>),
    analyzeInstruction: (Graph<E, I, X>, Label, I, F) -> (F, Option<RewriteInstructionBackward<E, I, X>>),
    analyzeEntry: (Graph<E, I, X>, Label, E, F) -> map<Label, F>)

  /** The blocks whose exit lists `l` among its successors. */
  function Predecessors<E, I, X>(lang: Language<E, X>, g: Graph<E, I, X>, l: Label): (r: set<Label>)
    ensures forall p :: p in r <==> p in g.blocks && l in BlockSuccessors(lang, g.blocks[p])
  {
    set p | p in g.blocks && l in BlockSuccessors(lang, g.blocks[p])
  }

  /** `graph.direct_predecessors(label)`: the predecessors of `l`, each once,
      in an order the model leaves open (the source's is hash order). */
  method DirectPredecessors<E, I, X>(lang: Language<E, X>, g: Graph<E, I, X>, l: Label) returns (ps: seq<Label>)
    ensures NoDup(ps) && Elems(ps) == Predecessors(lang, g, l)
  {
    var rest := Predecessors(lang, g, l);
    ps := [];
    while rest != {}
      invariant NoDup(ps) && Elems(ps) + rest == Predecessors(lang, g, l) && Elems(ps) !! rest
      decreases |rest|
    {
      var p :| p in rest;
      NoDupAppend(ps, p);
      ps := ps + [p];
      rest := rest - {p};
    }
  }

  /** The exit loop from a given state: the exit is offered again after each
      rewrite until the handler asks for none. Every client call spends one
      unit of `fuel`. Inside a block the only panic is an unimplemented
      sub-graph rewrite. */
  function RunExits<E, I, X, F>(a: BackwardAnalysis<E, I, X, F>, g: Graph<E, I, X>, here: Label,
                                fact: F, entry: E, code: seq<I>, exit: X, fuel: nat): (r: Outcome<map<Label, F>>)
    ensures r.Panic? ==> r.why == Unimplemented
    decreases fuel, 1
  {
    if fuel == 0 then OutOfFuel
    else
      var (f, rewrite) := a.analyzeExit(g, here, exit, fact);
      match rewrite
      case None => RunCode(a, g, here, f, entry, code, 0, fuel - 1)
      case Some(ReplaceExit(x)) => RunExits(a, g, here, f, entry, code, x, fuel - 1)
      case Some(Extend(insts, x)) => RunExits(a, g, here, f, entry, code + insts, x, fuel - 1)
      case Some(ExitWithGraph(_, _)) => Panic(Unimplemented)
  }

  /** The instruction loop from a given state: `counter` instructions at the
      end are done, the next is at `|code| - (counter + 1)`; once all are
      done the entry handler produces the output. */
  function RunCode<E, I, X, F>(a: BackwardAnalysis<E, I, X, F>, g: Graph<E, I, X>, here: Label,
                               fact: F, entry: E, code: seq<I>, counter: nat, fuel: nat): (r: Outcome<map<Label, F>>)
    ensures r.Panic? ==> r.why == Unimplemented
    decreases fuel, 0
  {
    if fuel == 0 then OutOfFuel
    else if counter < |code| then
      var index := |code| - (counter + 1);
      var (f, rewrite) := a.analyzeInstruction(g, here, code[index], fact);
      match rewrite
      case None => RunCode(a, g, here, f, entry, code, counter + 1, fuel - 1)
      case Some(Replace(inst)) => RunCode(a, g, here, f, entry, code[index := inst], counter, fuel - 1)
      case Some(ReplaceMany(insts)) => RunCode(a, g, here, f, entry, SpliceOne(code, index, insts), counter, fuel - 1)
      case Some(ReplaceWithGraph(_, _, _)) => Panic(Unimplemented)
    else
      Ok(a.analyzeEntry(g, here, entry, fact))
  }

  /** The per-predecessor output of the block at `here` when its exit is
      entered with `fact`. */
  function BackwardBlock<E, I, X, F>(a: BackwardAnalysis<E, I, X, F>, g: Graph<E, I, X>, here: Label, fact: F, fuel: nat)
    : (r: Outcome<map<Label, F>>)
    ensures r.Panic? ==> r.why == Unimplemented || (r.why == MissingKey && here !in g.blocks)
  {
    if here in g.blocks then
      var b := g.blocks[here];
      RunExits(a, g, here, fact, b.entry, b.code, b.exit, fuel)
    else
      Panic(MissingKey)
  }

  /** Neither handler ever asks for a rewrite. */
  ghost predicate NeverRewrites<E(!new), I(!new), X(!new), F(!new)>(a: BackwardAnalysis<E, I, X, F>) {
    (forall g, l, x, f :: a.analyzeExit(g, l, x, f).1 == None) &&
    (forall g, l, inst, f :: a.analyzeInstruction(g, l, inst, f).1 == None)
  }

  /** The fact after the instruction handler has run over `code` from its
      last instruction to its first. */
  function TransferBack<E, I, X, F>(a: BackwardAnalysis<E, I, X, F>, g: Graph<E, I, X>, here: Label, fact: F, code: seq<I>): F
    decreases |code|
  {
    if code == [] then fact
    else TransferBack(a, g, here, a.analyzeInstruction(g, here, code[|code| - 1], fact).0, code[..|code| - 1])
  }

  /** Run from `fact` over `code` from its last instruction to its first,
      the handler asks for no rewrite. */
  ghost predicate QuietBack<E, I, X, F>(a: BackwardAnalysis<E, I, X, F>, g: Graph<E, I, X>, here: Label, fact: F, code: seq<I>)
    decreases |code|
  {
    code == [] ||
    (a.analyzeInstruction(g, here, code[|code| - 1], fact).1 == None &&
     QuietBack(a, g, here, a.analyzeInstruction(g, here, code[|code| - 1], fact).0, code[..|code| - 1]))
  }

  /** A handler that never rewrites is quiet on every code from every fact. */
  lemma {:induction false} NeverRewritesQuietBack<E(!new), I(!new), X(!new), F(!new)>(
    a: BackwardAnalysis<E, I, X, F>, g: Graph<E, I, X>, here: Label, fact: F, code: seq<I>)
    requires NeverRewrites(a)
    ensures QuietBack(a, g, here, fact, code)
    decreases |code|
  {
    if code != [] {
      NeverRewritesQuietBack(a, g, here, a.analyzeInstruction(g, here, code[|code| - 1], fact).0, code[..|code| - 1]);
    }
  }

  /** Without rewrites the instruction loop is a right fold of the
      instruction handler followed by the entry handler. */
  lemma {:induction false} RunCodeWithoutRewrites<E, I, X, F>(
    a: BackwardAnalysis<E, I, X, F>, g: Graph<E, I, X>, here: Label, fact: F, entry: E, code: seq<I>, counter: nat, fuel: nat)
    requires counter <= |code| && QuietBack(a, g, here, fact, code[..|code| - counter])
    requires fuel > |code| - counter
    ensures RunCode(a, g, here, fact, entry, code, counter, fuel) ==
            Ok(a.analyzeEntry(g, here, entry, TransferBack(a, g, here, fact, code[..|code| - counter])))
    decreases |code| - counter
  {
    if counter < |code| {
      var index := |code| - (counter + 1);
      var f := a.analyzeInstruction(g, here, code[index], fact).0;
      assert code[..|code| - counter][..index] == code[..index];
      RunCodeWithoutRewrites(a, g, here, f, entry, code, counter + 1, fuel - 1);
    } else {
      assert code[..|code| - counter] == [];
    }
  }

  /** `Single(inst)` keeps the counter, so the replacement is analysed next,
      from the fact the handler left: with no rewrite after it, the output is
      that of the code before the instruction followed by `inst`. */
  lemma ReplaceReanalysesCounter<E, I, X, F>(
    a: BackwardAnalysis<E, I, X, F>, g: Graph<E, I, X>, here: Label, fact: F, entry: E, code: seq<I>, counter: nat,
    fuel: nat, inst: I)
    requires counter < |code| && fuel > |code| - counter + 1
    requires a.analyzeInstruction(g, here, code[|code| - (counter + 1)], fact).1 == Some(Replace(inst))
    requires var index := |code| - (counter + 1);
      QuietBack(a, g, here, a.analyzeInstruction(g, here, code[index], fact).0, code[..index] + [inst])
    ensures var index := |code| - (counter + 1);
      var f := a.analyzeInstruction(g, here, code[index], fact).0;
      RunCode(a, g, here, fact, entry, code, counter, fuel) ==
      Ok(a.analyzeEntry(g, here, entry, TransferBack(a, g, here, f, code[..index] + [inst])))
  {
    var index := |code| - (counter + 1);
    var f := a.analyzeInstruction(g, here, code[index], fact).0;
    assert code[index := inst][..|code| - counter] == code[..index] + [inst];
    RunCodeWithoutRewrites(a, g, here, f, entry, code[index := inst], counter, fuel - 1);
  }

  /** `Multiple(insts)` replaces the one instruction and keeps the counter,
      so the loop resumes at the last inserted instruction: with no rewrite
      after it, the output is that of the code before the instruction
      followed by `insts`. */
  lemma ManyResumesAtLast<E, I, X, F>(
    a: BackwardAnalysis<E, I, X, F>, g: Graph<E, I, X>, here: Label, fact: F, entry: E, code: seq<I>, counter: nat,
    fuel: nat, insts: seq<I>)
    requires counter < |code| && fuel > |code| - counter + |insts|
    requires a.analyzeInstruction(g, here, code[|code| - (counter + 1)], fact).1 == Some(ReplaceMany(insts))
    requires var index := |code| - (counter + 1);
      QuietBack(a, g, here, a.analyzeInstruction(g, here, code[index], fact).0, code[..index] + insts)
    ensures var index := |code| - (counter + 1);
      var f := a.analyzeInstruction(g, here, code[index], fact).0;
      RunCode(a, g, here, fact, entry, code, counter, fuel) ==
      Ok(a.analyzeEntry(g, here, entry, TransferBack(a, g, here, f, code[..index] + insts)))
  {
    var index := |code| - (counter + 1);
    var f := a.analyzeInstruction(g, here, code[index], fact).0;
    var spliced := SpliceOne(code, index, insts);
    assert spliced[..|spliced| - counter] == code[..index] + insts by {
      assert spliced[..|spliced| - counter] == spliced[..index] + spliced[index..index + |insts|];
    }
    RunCodeWithoutRewrites(a, g, here, f, entry, spliced, counter, fuel - 1);
  }

  /** `Extend(insts, x)` at the exit appends `insts` and offers `x` again;
      once the exit handler is satisfied the instruction loop walks the
      grown code from its end, the appended instructions first. */
  lemma ExtendGrowsCode<E, I, X, F>(
    a: BackwardAnalysis<E, I, X, F>, g: Graph<E, I, X>, here: Label, fact: F, entry: E, code: seq<I>, exit: X,
    fuel: nat, insts: seq<I>, x: X)
    requires fuel > |code| + |insts| + 2
    requires a.analyzeExit(g, here, exit, fact).1 == Some(Extend(insts, x))
    requires var f := a.analyzeExit(g, here, exit, fact).0;
      a.analyzeExit(g, here, x, f).1 == None &&
      QuietBack(a, g, here, a.analyzeExit(g, here, x, f).0, code + insts)
    ensures var f := a.analyzeExit(g, here, x, a.analyzeExit(g, here, exit, fact).0).0;
      RunExits(a, g, here, fact, entry, code, exit, fuel) ==
      Ok(a.analyzeEntry(g, here, entry, TransferBack(a, g, here, f, code + insts)))
  {
    var f := a.analyzeExit(g, here, x, a.analyzeExit(g, here, exit, fact).0).0;
    assert (code + insts)[..|code + insts| - 0] == code + insts;
    RunCodeWithoutRewrites(a, g, here, f, entry, code + insts, 0, fuel - 2);
  }

  /** Without rewrites a block is the exit handler, then the instructions from
      last to first, then the entry handler; it needs one unit of fuel per
      instruction plus one for the exit and one for the entry. */
  lemma BlockWithoutRewrites<E(!new), I(!new), X(!new), F(!new)>(
    a: BackwardAnalysis<E, I, X, F>, g: Graph<E, I, X>, here: Label, fact: F, fuel: nat)
    requires NeverRewrites(a)
    requires here in g.blocks && fuel > |g.blocks[here].code| + 1
    ensures var b := g.blocks[here];
      BackwardBlock(a, g, here, fact, fuel) ==
      Ok(a.analyzeEntry(g, here, b.entry, TransferBack(a, g, here, a.analyzeExit(g, here, b.exit, fact).0, b.code)))
  {
    var b := g.blocks[here];
    assert a.analyzeExit(g, here, b.exit, fact).1 == None;
    NeverRewritesQuietBack(a, g, here, a.analyzeExit(g, here, b.exit, fact).0, b.code[..|b.code|]);
    RunCodeWithoutRewrites(a, g, here, a.analyzeExit(g, here, b.exit, fact).0, b.entry, b.code, 0, fuel - 1);
    assert b.code[..|b.code|] == b.code;
  }

  /** `fixed_point_backward_block`: runs the handlers over a private copy of
      the block, exit first, and returns the entry handler's output. A label
      without a fact panics before the block is looked up. */
  method FixedPointBackwardBlock<E, I, X, F>(a: BackwardAnalysis<E, I, X, F>, g: Graph<E, I, X>, here: Label,
                                             facts: map<Label, F>, fuel: nat)
    returns (r: Outcome<map<Label, F>>)
    ensures here !in facts ==> r == Panic(MissingFact)
    ensures here in facts ==> r == BackwardBlock(a, g, here, facts[here], fuel)
  {
    if here !in facts {
      return Panic(MissingFact);
    }
    if here !in g.blocks {
      return Panic(MissingKey);
    }
    var block := g.blocks[here];
    var fact := facts[here];
    var code, exit, budget := block.code, block.exit, fuel;
    ghost var goal := BackwardBlock(a, g, here, facts[here], fuel);
    var exiting := true;
    while exiting && budget > 0
      invariant exiting ==> RunExits(a, g, here, fact, block.entry, code, exit, budget) == goal
      invariant !exiting ==> RunCode(a, g, here, fact, block.entry, code, 0, budget) == goal
      decreases budget
    {
      var (f, rewrite) := a.analyzeExit(g, here, exit, fact);
      fact := f;
      match rewrite {
        case None =>
          exiting := false;
        case Some(ReplaceExit(x)) =>
          exit := x;
        case Some(Extend(insts, x)) =>
          code := code + insts;
          exit := x;
        case Some(ExitWithGraph(_, _)) =>
          return Panic(Unimplemented);
      }
      budget := budget - 1;
    }
    if exiting {
      return OutOfFuel;
    }
    var counter := 0;
    while counter < |code| && budget > 0
      invariant RunCode(a, g, here, fact, block.entry, code, counter, budget) == goal
      decreases budget
    {
      var index := |code| - (counter + 1);
      var (f, rewrite) := a.analyzeInstruction(g, here, code[index], fact);
      fact := f;
      match rewrite {
        case None =>
          counter := counter + 1;
        case Some(Replace(inst)) =>
          code := code[index := inst];
        case Some(ReplaceMany(insts)) =>
          code := code[..index] + insts + code[index + 1..];
        case Some(ReplaceWithGraph(_, _, _)) =>
          return Panic(Unimplemented);
      }
      budget := budget - 1;
    }
    if budget == 0 {
      return OutOfFuel;
    }
    r := Ok(a.analyzeEntry(g, here, block.entry, fact));
  }

  /** Once the analysis of `l` settles: `l` is a block with a fact, its block
      runs to completion, and every predecessor's fact already holds what the
      block sends it. */
  ghost predicate Stable<E, I, X, F>(lang: Language<E, X>, lat: Lattice<F>, a: BackwardAnalysis<E, I, X, F>,
                                     g: Graph<E, I, X>, fuel: nat, facts: map<Label, F>, l: Label) {
    l in g.blocks && l in facts &&
    BackwardBlock(a, g, l, facts[l], fuel).Ok? &&
    Absorbed(lat, facts, BackwardBlock(a, g, l, facts[l], fuel).value, Predecessors(lang, g, l))
  }

  /** What holds between pops of the backward worklist: it has no duplicates
      and only blocks of the graph; keys are only added, and only for blocks;
      every reachable label no longer queued has been analysed, its
      predecessors have facts, and under the lattice laws it is stable. */
  ghost predicate DriverInvariant<E, I, X, F(!new)>(lang: Language<E, X>, lat: Lattice<F>, a: BackwardAnalysis<E, I, X, F>,
                                                    g: Graph<E, I, X>, entry: Label, facts: map<Label, F>, fuel: nat,
                                                    fb: map<Label, F>, toVisit: seq<Label>) {
    NoDup(toVisit) &&
    (forall v :: v in toVisit ==> v in g.blocks) &&
    facts.Keys <= fb.Keys &&
    (forall v :: v in fb && v !in facts ==> v in g.blocks) &&
    (forall v :: Reachable(lang, g, entry, v) && v !in toVisit ==>
       v in fb && v in g.blocks && Predecessors(lang, g, v) <= fb.Keys) &&
    (Lawful(lat) ==> forall v :: Reachable(lang, g, entry, v) && v !in toVisit ==> Stable(lang, lat, a, g, fuel, fb, v))
  }

  /** Analysing the popped label `here` and joining its output into its
      predecessors keeps the driver invariant. */
  lemma ProcessKeepsInvariant<E, I, X, F(!new)>(lang: Language<E, X>, lat: Lattice<F>, a: BackwardAnalysis<E, I, X, F>,
                                                g: Graph<E, I, X>, entry: Label, facts: map<Label, F>, fuel: nat,
                                                fb: map<Label, F>, toVisit: seq<Label>, here: Label, ps: seq<Label>,
                                                out: map<Label, F>, fb': map<Label, F>, toVisit': seq<Label>)
    requires DriverInvariant(lang, lat, a, g, entry, facts, fuel, fb, toVisit + [here])
    requires here !in toVisit
    requires here in g.blocks && here in fb && BackwardBlock(a, g, here, fb[here], fuel) == Ok(out)
    requires Elems(ps) == Predecessors(lang, g, here)
    requires fb'.Keys == fb.Keys + Elems(ps) &&
      (forall k :: k in fb && k !in ps ==> fb'[k] == fb[k]) &&
      |toVisit| <= |toVisit'| && toVisit'[..|toVisit|] == toVisit &&
      (forall i :: |toVisit| <= i < |toVisit'| ==> toVisit'[i] in ps) &&
      NoDup(toVisit') &&
      (Lawful(lat) ==> Absorbed(lat, fb', out, Elems(ps))) &&
      (Lawful(lat) ==> forall n :: n in ps && FactOr(fb', n, lat.bottom) != FactOr(fb, n, lat.bottom) ==> n in toVisit') &&
      (Lawful(lat) ==> forall o, ms :: Absorbed(lat, fb, o, ms) ==> Absorbed(lat, fb', o, ms))
    ensures DriverInvariant(lang, lat, a, g, entry, facts, fuel, fb', toVisit')
  {
    forall v | v in toVisit'
      ensures v in g.blocks
    {
      var i :| 0 <= i < |toVisit'| && toVisit'[i] == v;
      if i < |toVisit| {
        assert toVisit'[..|toVisit|][i] == v;
        assert v in toVisit + [here];
      } else {
        assert v in Elems(ps);
      }
    }
    forall v | v in fb' && v !in facts
      ensures v in g.blocks
    {
      if v !in fb {
        assert v in Elems(ps);
      }
    }
    forall v | Reachable(lang, g, entry, v) && v !in toVisit'
      ensures v in fb' && v in g.blocks && Predecessors(lang, g, v) <= fb'.Keys
    {
      assert v !in toVisit by {
        assert toVisit'[..|toVisit|] == toVisit;
      }
    }
    if Lawful(lat) {
      ProcessKeepsStable(lang, lat, a, g, entry, fuel, fb, toVisit, here, ps, out, fb', toVisit');
    }
  }

  /** The stability half of `ProcessKeepsInvariant`. */
  lemma ProcessKeepsStable<E, I, X, F(!new)>(lang: Language<E, X>, lat: Lattice<F>, a: BackwardAnalysis<E, I, X, F>,
                                             g: Graph<E, I, X>, entry: Label, fuel: nat,
                                             fb: map<Label, F>, toVisit: seq<Label>, here: Label, ps: seq<Label>,
                                             out: map<Label, F>, fb': map<Label, F>, toVisit': seq<Label>)
    requires Lawful(lat)
    requires forall v :: Reachable(lang, g, entry, v) && v !in toVisit + [here] ==> Stable(lang, lat, a, g, fuel, fb, v)
    requires here in g.blocks && here in fb && BackwardBlock(a, g, here, fb[here], fuel) == Ok(out)
    requires Elems(ps) == Predecessors(lang, g, here)
    requires fb.Keys <= fb'.Keys &&
      (forall k :: k in fb && k !in ps ==> fb'[k] == fb[k]) &&
      |toVisit| <= |toVisit'| && toVisit'[..|toVisit|] == toVisit &&
      Absorbed(lat, fb', out, Elems(ps)) &&
      (forall n :: n in ps && FactOr(fb', n, lat.bottom) != FactOr(fb, n, lat.bottom) ==> n in toVisit') &&
      (forall o, ms :: Absorbed(lat, fb, o, ms) ==> Absorbed(lat, fb', o, ms))
    ensures forall v :: Reachable(lang, g, entry, v) && v !in toVisit' ==> Stable(lang, lat, a, g, fuel, fb', v)
  {
    forall v | Reachable(lang, g, entry, v) && v !in toVisit'
      ensures Stable(lang, lat, a, g, fuel, fb', v)
    {
      assert v !in toVisit by {
        assert toVisit'[..|toVisit|] == toVisit;
      }
      if v in ps {
        assert FactOr(fb', v, lat.bottom) == FactOr(fb, v, lat.bottom);
      }
      if v == here {
        assert fb'[v] == fb[v];
      } else {
        assert v !in toVisit + [here];
        assert Stable(lang, lat, a, g, fuel, fb, v);
        assert fb'[v] == fb[v];
      }
    }
  }

  /** The sequence in reverse order (`Vec::reverse`). */
  function Reversed<T>(s: seq<T>): (r: seq<T>)
    ensures |r| == |s| && forall i :: 0 <= i < |s| ==> r[i] == s[|s| - 1 - i]
  {
    if s == [] then [] else [s[|s| - 1]] + Reversed(s[..|s| - 1])
  }

  /** Reversing keeps the elements and their distinctness. */
  lemma ReversedElems<T>(s: seq<T>)
    ensures forall x :: x in Reversed(s) <==> x in s
    ensures NoDup(s) ==> NoDup(Reversed(s))
  {
    var r := Reversed(s);
    forall x | x in s
      ensures x in r
    {
      var i :| 0 <= i < |s| && s[i] == x;
      assert r[|s| - 1 - i] == x;
    }
  }

  /** `fixed_point_backward_graph`. The worklist is the post-order from
      `entry`, reversed and popped from the end, so blocks are first visited
      in post-order. `blockFuel` bounds each block's loops and `fuel` the
      number of labels popped. The first label popped must already have a
      fact: when no reachable label has one the driver cannot get past it. */
  method FixedPointBackwardGraph<E, I, X, F(!new)>(lang: Language<E, X>, lat: Lattice<F>, a: BackwardAnalysis<E, I, X, F>,
                                                    g: Graph<E, I, X>, entry: Label, facts: map<Label, F>,
                                                    blockFuel: nat, fuel: nat)
    returns (r: Outcome<map<Label, F>>)
    ensures (exists v :: Reachable(lang, g, entry, v) && v !in g.blocks) ==> r == Panic(MissingKey)
    ensures (forall v :: Reachable(lang, g, entry, v) ==> v in g.blocks && v !in facts) ==>
              r == if fuel == 0 then OutOfFuel else Panic(MissingFact)
    ensures Total(lat) && g.blocks.Keys <= facts.Keys ==> r != Panic(MissingFact)
    ensures r.Ok? ==> facts.Keys <= r.value.Keys
    ensures r.Ok? ==> forall v :: v in r.value && v !in facts ==> v in g.blocks
    ensures r.Ok? ==> forall v :: Reachable(lang, g, entry, v) ==> v in r.value
    ensures r.Ok? && Lawful(lat) ==>
              forall v :: Reachable(lang, g, entry, v) ==> Stable(lang, lat, a, g, blockFuel, r.value, v)
  {
    var order := PostOrderTraversal(lang, g, entry);
    if !order.Ok? {
      return Panic(MissingKey);
    }
    var toVisit := Reversed(order.value);
    ReversedElems(order.value);
    var fb := facts;
    var budget := fuel;
    ghost var started := false;
    while budget > 0 && |toVisit| > 0
      invariant DriverInvariant(lang, lat, a, g, entry, facts, blockFuel, fb, toVisit)
      invariant Total(lat) && g.blocks.Keys <= facts.Keys ==> g.blocks.Keys <= fb.Keys
      invariant !started ==> fb == facts && toVisit == Reversed(order.value) && budget == fuel
      invariant started ==> exists v :: Reachable(lang, g, entry, v) && v in facts
      decreases budget
    {
      ghost var here := toVisit[|toVisit| - 1];
      assert !started ==> Reachable(lang, g, entry, here) by {
        if !started {
          assert here in Reversed(order.value);
        }
      }
      budget := budget - 1;
      var step := BackwardStep(lang, lat, a, g, entry, facts, blockFuel, fb, toVisit);
      if !step.Ok? {
        return Fail(step);
      }
      assert !started ==> here in facts;
      fb, toVisit := step.value.0, step.value.1;
      started := true;
    }
    if |toVisit| > 0 {
      return OutOfFuel;
    }
    r := Ok(fb);
  }

  /** One turn of the `while let` of `fixed_point_backward_graph`: pop a
      label, analyse its block, join the output into its predecessors. */
  method BackwardStep<E, I, X, F(!new)>(lang: Language<E, X>, lat: Lattice<F>, a: BackwardAnalysis<E, I, X, F>,
                                         g: Graph<E, I, X>, entry: Label, facts: map<Label, F>, blockFuel: nat,
                                         fb: map<Label, F>, toVisit: seq<Label>)
    returns (r: Outcome<(map<Label, F>, seq<Label>)>)
    requires |toVisit| > 0
    requires DriverInvariant(lang, lat, a, g, entry, facts, blockFuel, fb, toVisit)
    ensures r.Ok? ==> DriverInvariant(lang, lat, a, g, entry, facts, blockFuel, r.value.0, r.value.1)
    ensures r.Ok? ==> fb.Keys <= r.value.0.Keys
    ensures toVisit[|toVisit| - 1] !in fb ==> r == Panic(MissingFact)
    ensures Total(lat) && toVisit[|toVisit| - 1] in fb ==> r != Panic(MissingFact)
  {
    var here := toVisit[|toVisit| - 1];
    var rest := toVisit[..|toVisit| - 1];
    assert rest + [here] == toVisit;
    assert here !in rest by {
      assert forall i :: 0 <= i < |rest| ==> toVisit[i] == rest[i];
    }
    // Every queued label is a block of the graph, so the source's skip of
    // labels outside the graph never fires.
    assert Contains(g, here);
    var out := FixedPointBackwardBlock(a, g, here, fb, blockFuel);
    if !out.Ok? {
      return Fail(out);
    }
    var ps := DirectPredecessors(lang, g, here);
    var joined := JoinNeighbours(lat, out.value, ps, fb, rest);
    if !joined.Ok? {
      return Fail(joined);
    }
    ProcessKeepsInvariant(lang, lat, a, g, entry, facts, blockFuel, fb, rest, here, ps, out.value, joined.value.0, joined.value.1);
    r := joined;
  }

  /** `backward_analysis` as written: the fact base starts empty, so the
      first label popped has no fact and the analysis never returns. */
  method BackwardAnalyze<E, I, X, F(!new)>(lang: Language<E, X>, lat: Lattice<F>, a: BackwardAnalysis<E, I, X, F>,
                                            g: Graph<E, I, X>, entry: Label, blockFuel: nat, fuel: nat)
    returns (r: Outcome<map<Label, F>>)
    ensures !r.Ok?
    ensures (exists v :: Reachable(lang, g, entry, v) && v !in g.blocks) ==> r == Panic(MissingKey)
    ensures (forall v :: Reachable(lang, g, entry, v) ==> v in g.blocks) && fuel > 0 ==> r == Panic(MissingFact)
  {
    r := FixedPointBackwardGraph(lang, lat, a, g, entry, map[], blockFuel, fuel);
  }

  /** Every block of the graph starts at `bottom`. */
  function BottomFacts<E, I, X, F>(lat: Lattice<F>, g: Graph<E, I, X>): (r: map<Label, F>)
    ensures r.Keys == g.blocks.Keys && forall l :: l in r ==> r[l] == lat.bottom
  {
    map l | l in g.blocks :: lat.bottom
  }

  /** `backward_analysis` with every block's fact starting at `bottom`: no
      label lacks a fact, the result covers exactly the blocks, and under the
      lattice laws every reachable block is stable. */
  method BackwardAnalyzeFromBottom<E, I, X, F(!new)>(lang: Language<E, X>, lat: Lattice<F>, a: BackwardAnalysis<E, I, X, F>,
                                                      g: Graph<E, I, X>, entry: Label, blockFuel: nat, fuel: nat)
    returns (r: Outcome<map<Label, F>>)
    ensures (exists v :: Reachable(lang, g, entry, v) && v !in g.blocks) ==> r == Panic(MissingKey)
    ensures Total(lat) ==> r != Panic(MissingFact)
    ensures r.Ok? ==> r.value.Keys == g.blocks.Keys
    ensures r.Ok? && Lawful(lat) ==>
              forall v :: Reachable(lang, g, entry, v) ==> Stable(lang, lat, a, g, blockFuel, r.value, v)
  {
    r := FixedPointBackwardGraph(lang, lat, a, g, entry, BottomFacts(lat, g), blockFuel, fuel);
  }
}
