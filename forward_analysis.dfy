/** The forward worklist engine over block graphs: the client analyses each
    block's entry, instructions and exit in order, may rewrite the block it is
    looking at, and the engine joins the block's output facts into its
    successors' facts until nothing changes. */
module ForwardEngine {
  import opened Common
  import opened Lattices
  import opened BlockGraph
  import opened Worklist

  /** What the instruction handler may ask for: replace the instruction by one
      (`Single`) or several (`Multiple`), or by a sub-graph (`Graph`). */
  datatype RewriteInstruction<E, I, X> =
    | Replace(inst: I)
    | ReplaceMany(insts: seq<I>)
    | ReplaceWithGraph(jump: X, subGraph: Graph<E, I, X>, rest: E)

  /** What the exit handler returns: the output facts (`Done`), a new exit
      (`Single`), extra instructions and a new exit (`Extend`), or a sub-graph
      (`Graph`). */
  datatype RewriteExit<E, I, X, F> =
    | Done(facts: map<Label, F>)
    | ReplaceExit(exit: X)
    | Extend(insts: seq<I>, exit: X)
    | ExitWithGraph(jump: X, subGraph: Graph<E, I, X>, rest: E)

  /** The client's three handlers. Each sees the graph, the block's label, the
      piece of the block and the current fact; the instruction handler returns
      its updated fact beside its rewrite request. */
  datatype ForwardAnalysis<!E, !I, !X, !F> = ForwardAnalysis(
    analyzeEntry: (Graph<E, I, X>, Label, E, F) -> F,
    analyzeInstruction: (Graph<E, I, X>, Label, I, F) -> (F, Option<RewriteInstruction<E, I, X>>),
    analyzeExit: (Graph<E, I, X>, Label, X, F) -> RewriteExit<E, I, X, F>)

  /** `distribute_facts`: every successor of the exit receives the fact. */
  method DistributeFacts<E, X, F>(lang: Language<E, X>, exit: X, fact: F) returns (r: map<Label, F>)
    ensures r == Distributed(lang.successorsOf(exit), fact)
  {
    var succs := lang.successorsOf(exit);
    r := map[];
    var k := 0;
    while k < |succs|
      invariant 0 <= k <= |succs|
      invariant r == Distributed(succs[..k], fact)
    {
      assert succs[..k + 1] == succs[..k] + [succs[k]];
      r := r[succs[k] := fact];
      k := k + 1;
    }
    assert succs[..k] == succs;
  }

  /** The map from each label of `succs` to `fact`. */
  function Distributed<F>(succs: seq<Label>, fact: F): (r: map<Label, F>)
    ensures forall l :: l in r <==> l in succs
    ensures forall l :: l in r ==> r[l] == fact
  {
    if succs == [] then map[] else Distributed(succs[..|succs| - 1], fact)[succs[|succs| - 1] := fact]
  }

  /** `code.splice(index..index + insts.len(), insts)`: as many old
      instructions as there are new ones are overwritten; a range that runs
      past the end panics. */
  function SpliceOver<I>(code: seq<I>, index: nat, insts: seq<I>): (r: Outcome<seq<I>>)
    ensures r.Ok? <==> index + |insts| <= |code|
    ensures !r.Ok? ==> r == Panic(SpliceOutOfRange)
    ensures r.Ok? ==> |r.value| == |code| && r.value[..index] == code[..index] &&
                      r.value[index..index + |insts|] == insts && r.value[index + |insts|..] == code[index + |insts|..]
  {
    if index + |insts| <= |code| then
      var s := code[..index] + insts + code[index + |insts|..];
      assert s[index..index + |insts|] == insts;
      Ok(s)
    else
      Panic(SpliceOutOfRange)
  }

  /** The block loop from a given state, each client call spending one unit
      of `fuel`: instructions from `index` on, then the exit, which may send
      the loop back to the instructions. As written, `Multiple` is spliced
      over as many instructions as it brings (`SpliceOver`); `corrected`
      replaces the current instruction only (`SpliceOne`), as the backward
      engine does. Inside a block the only panics are an unimplemented
      sub-graph rewrite and, as written, an out-of-range splice. */
  function RunBlock<E, I, X, F>(a: ForwardAnalysis<E, I, X, F>, g: Graph<E, I, X>, here: Label,
                                fact: F, code: seq<I>, exit: X, index: nat, fuel: nat, corrected: bool)
    : (r: Outcome<map<Label, F>>)
    ensures r.Panic? ==> r.why == Unimplemented || (r.why == SpliceOutOfRange && !corrected)
    decreases fuel
  {
    if fuel == 0 then OutOfFuel
    else if index < |code| then
      var (f, rewrite) := a.analyzeInstruction(g, here, code[index], fact);
      match rewrite
      case None => RunBlock(a, g, here, f, code, exit, index + 1, fuel - 1, corrected)
      case Some(Replace(inst)) => RunBlock(a, g, here, f, code[index := inst], exit, index, fuel - 1, corrected)
      case Some(ReplaceMany(insts)) =>
        if corrected then RunBlock(a, g, here, f, SpliceOne(code, index, insts), exit, index, fuel - 1, corrected)
        else
          var spliced := SpliceOver(code, index, insts);
          if spliced.Ok? then RunBlock(a, g, here, f, spliced.value, exit, index, fuel - 1, corrected) else Fail(spliced)
      case Some(ReplaceWithGraph(_, _, _)) => Panic(Unimplemented)
    else
      match a.analyzeExit(g, here, exit, fact)
      case Done(out) => Ok(out)
      case ReplaceExit(x) => RunBlock(a, g, here, fact, code, x, index, fuel - 1, corrected)
      case Extend(insts, x) => RunBlock(a, g, here, fact, code + insts, x, index, fuel - 1, corrected)
      case ExitWithGraph(_, _, _) => Panic(Unimplemented)
  }

  /** The output facts of the block at `here` when it is entered with `fact`. */
  function ForwardBlock<E, I, X, F>(a: ForwardAnalysis<E, I, X, F>, g: Graph<E, I, X>, here: Label, fact: F, fuel: nat,
                                    corrected: bool): (r: Outcome<map<Label, F>>)
    ensures here !in g.blocks ==> r == Panic(MissingKey)
    ensures r.Panic? ==> (r.why == MissingKey && here !in g.blocks) || r.why == Unimplemented ||
                         (r.why == SpliceOutOfRange && !corrected)
  {
    if here in g.blocks then
      var b := g.blocks[here];
      RunBlock(a, g, here, a.analyzeEntry(g, here, b.entry, fact), b.code, b.exit, 0, fuel, corrected)
    else
      Panic(MissingKey)
  }

  /** The handler never asks to rewrite an instruction. */
  ghost predicate NeverRewrites<E(!new), I(!new), X(!new), F(!new)>(a: ForwardAnalysis<E, I, X, F>) {
    forall g, l, inst, f :: a.analyzeInstruction(g, l, inst, f).1 == None
  }

  /** The fact after the instruction handler has run over `code` in order. */
  function Transfer<E, I, X, F>(a: ForwardAnalysis<E, I, X, F>, g: Graph<E, I, X>, here: Label, fact: F, code: seq<I>): F
    decreases |code|
  {
    if code == [] then fact else Transfer(a, g, here, a.analyzeInstruction(g, here, code[0], fact).0, code[1..])
  }

  /** Run from `fact` over `code` in order, the handler asks for no rewrite. */
  ghost predicate Quiet<E, I, X, F>(a: ForwardAnalysis<E, I, X, F>, g: Graph<E, I, X>, here: Label, fact: F, code: seq<I>)
    decreases |code|
  {
    code == [] ||
    (a.analyzeInstruction(g, here, code[0], fact).1 == None &&
     Quiet(a, g, here, a.analyzeInstruction(g, here, code[0], fact).0, code[1..]))
  }

  /** A handler that never rewrites is quiet on every code from every fact. */
  lemma {:induction false} NeverRewritesQuiet<E(!new), I(!new), X(!new), F(!new)>(
    a: ForwardAnalysis<E, I, X, F>, g: Graph<E, I, X>, here: Label, fact: F, code: seq<I>)
    requires NeverRewrites(a)
    ensures Quiet(a, g, here, fact, code)
    decreases |code|
  {
    if code != [] {
      NeverRewritesQuiet(a, g, here, a.analyzeInstruction(g, here, code[0], fact).0, code[1..]);
    }
  }

  /** Without rewrites the block loop is a left fold of the instruction
      handler followed by one call of the exit handler, and needs one unit of
      fuel per instruction plus one for the exit. */
  lemma {:induction false} RunWithoutRewrites<E, I, X, F>(
    a: ForwardAnalysis<E, I, X, F>, g: Graph<E, I, X>, here: Label, fact: F, code: seq<I>, exit: X, index: nat, fuel: nat, corrected: bool)
    requires index <= |code| && Quiet(a, g, here, fact, code[index..])
    requires fuel > |code| - index
    requires a.analyzeExit(g, here, exit, Transfer(a, g, here, fact, code[index..])).Done?
    ensures RunBlock(a, g, here, fact, code, exit, index, fuel, corrected) ==
            Ok(a.analyzeExit(g, here, exit, Transfer(a, g, here, fact, code[index..])).facts)
    decreases |code| - index
  {
    if index < |code| {
      var f := a.analyzeInstruction(g, here, code[index], fact).0;
      assert code[index..][1..] == code[index + 1..];
      RunWithoutRewrites(a, g, here, f, code, exit, index + 1, fuel - 1, corrected);
    } else {
      assert code[index..] == [];
    }
  }

  /** `Single(inst)` at `index` replaces the instruction and analyses the same
      index again, from the fact the handler left: with no rewrite after it,
      the block's output is that of `inst` followed by the rest of the code. */
  lemma ReplaceReanalysesIndex<E, I, X, F>(
    a: ForwardAnalysis<E, I, X, F>, g: Graph<E, I, X>, here: Label, fact: F, code: seq<I>, exit: X, index: nat, fuel: nat,
    corrected: bool, inst: I)
    requires index < |code| && fuel > |code| - index + 1
    requires a.analyzeInstruction(g, here, code[index], fact).1 == Some(Replace(inst))
    requires var f := a.analyzeInstruction(g, here, code[index], fact).0;
      Quiet(a, g, here, f, [inst] + code[index + 1..]) &&
      a.analyzeExit(g, here, exit, Transfer(a, g, here, f, [inst] + code[index + 1..])).Done?
    ensures var f := a.analyzeInstruction(g, here, code[index], fact).0;
      RunBlock(a, g, here, fact, code, exit, index, fuel, corrected) ==
      Ok(a.analyzeExit(g, here, exit, Transfer(a, g, here, f, [inst] + code[index + 1..])).facts)
  {
    var f := a.analyzeInstruction(g, here, code[index], fact).0;
    assert code[index := inst][index..] == [inst] + code[index + 1..];
    RunWithoutRewrites(a, g, here, f, code[index := inst], exit, index, fuel - 1, corrected);
  }

  /** Corrected `Multiple(insts)` at `index` replaces that one instruction by
      `insts` and resumes at the first of them: with no rewrite after it, the
      block's output is that of `insts` followed by the rest of the code. */
  lemma ManyResumesAtFirst<E, I, X, F>(
    a: ForwardAnalysis<E, I, X, F>, g: Graph<E, I, X>, here: Label, fact: F, code: seq<I>, exit: X, index: nat, fuel: nat,
    insts: seq<I>)
    requires index < |code| && fuel > |code| - index + |insts|
    requires a.analyzeInstruction(g, here, code[index], fact).1 == Some(ReplaceMany(insts))
    requires var f := a.analyzeInstruction(g, here, code[index], fact).0;
      Quiet(a, g, here, f, insts + code[index + 1..]) &&
      a.analyzeExit(g, here, exit, Transfer(a, g, here, f, insts + code[index + 1..])).Done?
    ensures var f := a.analyzeInstruction(g, here, code[index], fact).0;
      RunBlock(a, g, here, fact, code, exit, index, fuel, true) ==
      Ok(a.analyzeExit(g, here, exit, Transfer(a, g, here, f, insts + code[index + 1..])).facts)
  {
    var f := a.analyzeInstruction(g, here, code[index], fact).0;
    var spliced := SpliceOne(code, index, insts);
    assert spliced[index..] == insts + code[index + 1..] by {
      assert spliced[index..] == spliced[index..index + |insts|] + spliced[index + |insts|..];
    }
    RunWithoutRewrites(a, g, here, f, spliced, exit, index, fuel - 1, true);
  }

  /** As written, `Multiple(insts)` at `index` overwrites `|insts|`
      instructions: the ones after the current instruction that it covers
      are never analysed, and the block's output is that of `insts`
      followed by what lies beyond them. */
  lemma ManyOverwritesAsWritten<E, I, X, F>(
    a: ForwardAnalysis<E, I, X, F>, g: Graph<E, I, X>, here: Label, fact: F, code: seq<I>, exit: X, index: nat, fuel: nat,
    insts: seq<I>)
    requires index + |insts| <= |code| && index < |code| && fuel > |code| - index + 1
    requires a.analyzeInstruction(g, here, code[index], fact).1 == Some(ReplaceMany(insts))
    requires var f := a.analyzeInstruction(g, here, code[index], fact).0;
      Quiet(a, g, here, f, insts + code[index + |insts|..]) &&
      a.analyzeExit(g, here, exit, Transfer(a, g, here, f, insts + code[index + |insts|..])).Done?
    ensures var f := a.analyzeInstruction(g, here, code[index], fact).0;
      RunBlock(a, g, here, fact, code, exit, index, fuel, false) ==
      Ok(a.analyzeExit(g, here, exit, Transfer(a, g, here, f, insts + code[index + |insts|..])).facts)
  {
    var f := a.analyzeInstruction(g, here, code[index], fact).0;
    var spliced := SpliceOver(code, index, insts).value;
    assert spliced[index..] == insts + code[index + |insts|..] by {
      assert spliced[index..] == spliced[index..index + |insts|] + spliced[index + |insts|..];
    }
    RunWithoutRewrites(a, g, here, f, spliced, exit, index, fuel - 1, false);
  }

  /** As written, `Multiple(insts)` bringing more instructions than remain
      from `index` panics; corrected, the same request never panics on the
      splice. A one-instruction block expanded into two shows it. */
  lemma ManyOverrunPanics<E, I, X, F>(
    a: ForwardAnalysis<E, I, X, F>, g: Graph<E, I, X>, here: Label, fact: F, code: seq<I>, exit: X, index: nat, fuel: nat,
    insts: seq<I>)
    requires index < |code| < index + |insts| && fuel > 0
    requires a.analyzeInstruction(g, here, code[index], fact).1 == Some(ReplaceMany(insts))
    ensures RunBlock(a, g, here, fact, code, exit, index, fuel, false) == Panic(SpliceOutOfRange)
    ensures RunBlock(a, g, here, fact, code, exit, index, fuel, true) != Panic(SpliceOutOfRange)
  {
  }

  /** `Extend(insts, x)` at the exit appends `insts` and installs `x` without
      resetting the index: only the appended instructions are analysed, from
      the fact that reached the exit, and then `x` is offered. */
  lemma ExtendAnalysesAppended<E, I, X, F>(
    a: ForwardAnalysis<E, I, X, F>, g: Graph<E, I, X>, here: Label, fact: F, code: seq<I>, exit: X, fuel: nat,
    corrected: bool, insts: seq<I>, x: X)
    requires fuel > |insts| + 1
    requires a.analyzeExit(g, here, exit, fact) == Extend(insts, x)
    requires Quiet(a, g, here, fact, insts) && a.analyzeExit(g, here, x, Transfer(a, g, here, fact, insts)).Done?
    ensures RunBlock(a, g, here, fact, code, exit, |code|, fuel, corrected) ==
            Ok(a.analyzeExit(g, here, x, Transfer(a, g, here, fact, insts)).facts)
  {
    assert (code + insts)[|code|..] == insts;
    RunWithoutRewrites(a, g, here, fact, code + insts, x, |code|, fuel - 1, corrected);
  }

  /** `fixed_point_forward_block`: runs the handlers over a private copy of
      the block, applying their rewrites, and returns the exit's output facts.
      A label without a fact panics before the block is looked up. */
  method FixedPointForwardBlock<E, I, X, F>(a: ForwardAnalysis<E, I, X, F>, g: Graph<E, I, X>, here: Label,
                                            facts: map<Label, F>, fuel: nat, corrected: bool)
    returns (r: Outcome<map<Label, F>>)
    ensures here !in facts ==> r == Panic(MissingFact)
    ensures here in facts ==> r == ForwardBlock(a, g, here, facts[here], fuel, corrected)
  {
    if here !in facts {
      return Panic(MissingFact);
    }
    if here !in g.blocks {
      return Panic(MissingKey);
    }
    var block := g.blocks[here];
    var fact := a.analyzeEntry(g, here, block.entry, facts[here]);
    var code, exit, index, budget := block.code, block.exit, 0, fuel;
    ghost var goal := ForwardBlock(a, g, here, facts[here], fuel, corrected);
    while budget > 0
      invariant RunBlock(a, g, here, fact, code, exit, index, budget, corrected) == goal
      decreases budget
    {
      while index < |code| && budget > 0
        invariant RunBlock(a, g, here, fact, code, exit, index, budget, corrected) == goal
        decreases budget
      {
        var (f, rewrite) := a.analyzeInstruction(g, here, code[index], fact);
        fact := f;
        match rewrite {
          case None =>
            index := index + 1;
          case Some(Replace(inst)) =>
            code := code[index := inst];
          case Some(ReplaceMany(insts)) =>
            if corrected {
              code := code[..index] + insts + code[index + 1..];
            } else {
              if index + |insts| > |code| {
                return Panic(SpliceOutOfRange);
              }
              code := code[..index] + insts + code[index + |insts|..];
            }
          case Some(ReplaceWithGraph(_, _, _)) =>
            return Panic(Unimplemented);
        }
        budget := budget - 1;
      }
      if budget == 0 {
        break;
      }
      match a.analyzeExit(g, here, exit, fact) {
        case Done(out) =>
          return Ok(out);
        case ReplaceExit(x) =>
          exit := x;
        case Extend(insts, x) =>
          code := code + insts;
          exit := x;
        case ExitWithGraph(_, _, _) =>
          return Panic(Unimplemented);
      }
      budget := budget - 1;
    }
    r := OutOfFuel;
  }

  /** Once the analysis of `l` settles: `l` is a block with a fact, its block
      runs to completion, and every successor's fact already holds what the
      block sends it. */
  ghost predicate Stable<E, I, X, F>(lang: Language<E, X>, lat: Lattice<F>, a: ForwardAnalysis<E, I, X, F>,
                                     g: Graph<E, I, X>, fuel: nat, corrected: bool, facts: map<Label, F>, l: Label) {
    l in g.blocks && l in facts &&
    ForwardBlock(a, g, l, facts[l], fuel, corrected).Ok? &&
    Absorbed(lat, facts, ForwardBlock(a, g, l, facts[l], fuel, corrected).value, Elems(BlockSuccessors(lang, g.blocks[l])))
  }

  /** What holds between pops of the forward worklist: it has no duplicates
      and only reachable labels; keys are only added, and only for reachable
      labels; every reachable label no longer queued has been analysed, its
      successors have facts, and under the lattice laws it is stable. */
  ghost predicate DriverInvariant<E, I, X, F(!new)>(lang: Language<E, X>, lat: Lattice<F>, a: ForwardAnalysis<E, I, X, F>,
                                                    g: Graph<E, I, X>, entry: Label, facts: map<Label, F>, fuel: nat,
                                                    corrected: bool, fb: map<Label, F>, toVisit: seq<Label>) {
    NoDup(toVisit) &&
    (forall v :: v in toVisit ==> Reachable(lang, g, entry, v)) &&
    facts.Keys <= fb.Keys &&
    (forall v :: v in fb && v !in facts ==> Reachable(lang, g, entry, v)) &&
    (forall v :: Reachable(lang, g, entry, v) && v !in toVisit ==>
       v in fb && v in g.blocks && forall t :: t in BlockSuccessors(lang, g.blocks[v]) ==> t in fb) &&
    (Lawful(lat) ==> forall v :: Reachable(lang, g, entry, v) && v !in toVisit ==> Stable(lang, lat, a, g, fuel, corrected, fb, v))
  }

  /** Analysing the popped label `here` and joining its output into its
      successors keeps the driver invariant. */
  lemma ProcessKeepsInvariant<E, I, X, F(!new)>(lang: Language<E, X>, lat: Lattice<F>, a: ForwardAnalysis<E, I, X, F>,
                                                g: Graph<E, I, X>, entry: Label, facts: map<Label, F>, fuel: nat,
                                                corrected: bool, fb: map<Label, F>, toVisit: seq<Label>, here: Label,
                                                out: map<Label, F>, fb': map<Label, F>, toVisit': seq<Label>)
    requires DriverInvariant(lang, lat, a, g, entry, facts, fuel, corrected, fb, toVisit + [here])
    requires here !in toVisit && Reachable(lang, g, entry, here)
    requires here in g.blocks && here in fb && ForwardBlock(a, g, here, fb[here], fuel, corrected) == Ok(out)
    requires var ns := BlockSuccessors(lang, g.blocks[here]);
      fb'.Keys == fb.Keys + Elems(ns) &&
      (forall k :: k in fb && k !in ns ==> fb'[k] == fb[k]) &&
      |toVisit| <= |toVisit'| && toVisit'[..|toVisit|] == toVisit &&
      (forall i :: |toVisit| <= i < |toVisit'| ==> toVisit'[i] in ns) &&
      NoDup(toVisit') &&
      (Lawful(lat) ==> Absorbed(lat, fb', out, Elems(ns))) &&
      (Lawful(lat) ==> forall n :: n in ns && FactOr(fb', n, lat.bottom) != FactOr(fb, n, lat.bottom) ==> n in toVisit') &&
      (Lawful(lat) ==> forall o, ms :: Absorbed(lat, fb, o, ms) ==> Absorbed(lat, fb', o, ms))
    ensures DriverInvariant(lang, lat, a, g, entry, facts, fuel, corrected, fb', toVisit')
  {
    var succs := BlockSuccessors(lang, g.blocks[here]);
    forall v | v in toVisit'
      ensures Reachable(lang, g, entry, v)
    {
      var i :| 0 <= i < |toVisit'| && toVisit'[i] == v;
      if i < |toVisit| {
        assert toVisit'[..|toVisit|][i] == v;
        assert v in toVisit + [here];
      } else {
        ReachableStep(lang, g, entry, here, v);
      }
    }
    forall v | v in fb' && v !in facts
      ensures Reachable(lang, g, entry, v)
    {
      if v !in fb {
        ReachableStep(lang, g, entry, here, v);
      }
    }
    forall v | Reachable(lang, g, entry, v) && v !in toVisit'
      ensures v in fb' && v in g.blocks && forall t :: t in BlockSuccessors(lang, g.blocks[v]) ==> t in fb'
    {
      assert v !in toVisit by {
        assert toVisit'[..|toVisit|] == toVisit;
      }
    }
    if Lawful(lat) {
      ProcessKeepsStable(lang, lat, a, g, entry, fuel, corrected, fb, toVisit, here, out, fb', toVisit');
    }
  }

  /** The stability half of `ProcessKeepsInvariant`. */
  lemma ProcessKeepsStable<E, I, X, F(!new)>(lang: Language<E, X>, lat: Lattice<F>, a: ForwardAnalysis<E, I, X, F>,
                                             g: Graph<E, I, X>, entry: Label, fuel: nat, corrected: bool,
                                             fb: map<Label, F>, toVisit: seq<Label>, here: Label,
                                             out: map<Label, F>, fb': map<Label, F>, toVisit': seq<Label>)
    requires Lawful(lat)
    requires forall v :: Reachable(lang, g, entry, v) && v !in toVisit + [here] ==> Stable(lang, lat, a, g, fuel, corrected, fb, v)
    requires here in g.blocks && here in fb && ForwardBlock(a, g, here, fb[here], fuel, corrected) == Ok(out)
    requires var ns := BlockSuccessors(lang, g.blocks[here]);
      fb.Keys <= fb'.Keys &&
      (forall k :: k in fb && k !in ns ==> fb'[k] == fb[k]) &&
      |toVisit| <= |toVisit'| && toVisit'[..|toVisit|] == toVisit &&
      Absorbed(lat, fb', out, Elems(ns)) &&
      (forall n :: n in ns && FactOr(fb', n, lat.bottom) != FactOr(fb, n, lat.bottom) ==> n in toVisit') &&
      (forall o, ms :: Absorbed(lat, fb, o, ms) ==> Absorbed(lat, fb', o, ms))
    ensures forall v :: Reachable(lang, g, entry, v) && v !in toVisit' ==> Stable(lang, lat, a, g, fuel, corrected, fb', v)
  {
    var succs := BlockSuccessors(lang, g.blocks[here]);
    forall v | Reachable(lang, g, entry, v) && v !in toVisit'
      ensures Stable(lang, lat, a, g, fuel, corrected, fb', v)
    {
      assert v !in toVisit by {
        assert toVisit'[..|toVisit|] == toVisit;
      }
      if v in succs {
        assert FactOr(fb', v, lat.bottom) == FactOr(fb, v, lat.bottom);
      }
      if v == here {
        assert fb'[v] == fb[v];
      } else {
        assert v !in toVisit + [here];
        assert Stable(lang, lat, a, g, fuel, corrected, fb, v);
        assert fb'[v] == fb[v];
      }
    }
  }

  /** `fixed_point_forward_graph`. The worklist starts as the post-order from
      `entry` and is popped from the end. `blockFuel` bounds each block's
      loop and `fuel` the number of labels popped. */
  method FixedPointForwardGraph<E, I, X, F(!new)>(lang: Language<E, X>, lat: Lattice<F>, a: ForwardAnalysis<E, I, X, F>,
                                                   g: Graph<E, I, X>, entry: Label, facts: map<Label, F>,
                                                   blockFuel: nat, fuel: nat, corrected: bool)
    returns (r: Outcome<map<Label, F>>)
    ensures (exists v :: Reachable(lang, g, entry, v) && v !in g.blocks) ==> r == Panic(MissingKey)
    ensures r.Ok? ==> facts.Keys <= r.value.Keys
    ensures r.Ok? ==> forall v :: v in r.value && v !in facts ==> Reachable(lang, g, entry, v)
    ensures r.Ok? ==> forall v :: Reachable(lang, g, entry, v) ==> v in r.value
    ensures r.Ok? && Lawful(lat) ==>
              forall v :: Reachable(lang, g, entry, v) ==> Stable(lang, lat, a, g, blockFuel, corrected, r.value, v)
    ensures corrected && Total(lat) ==> r != Panic(SpliceOutOfRange)
  {
    var order := PostOrderTraversal(lang, g, entry);
    if !order.Ok? {
      return Panic(MissingKey);
    }
    var toVisit := order.value;
    var fb := facts;
    var budget := fuel;
    while budget > 0 && |toVisit| > 0
      invariant DriverInvariant(lang, lat, a, g, entry, facts, blockFuel, corrected, fb, toVisit)
      decreases budget
    {
      budget := budget - 1;
      var step := ForwardStep(lang, lat, a, g, entry, facts, blockFuel, corrected, fb, toVisit);
      if !step.Ok? {
        return Fail(step);
      }
      fb, toVisit := step.value.0, step.value.1;
    }
    if |toVisit| > 0 {
      return OutOfFuel;
    }
    r := Ok(fb);
  }

  /** One turn of the `while let` of `fixed_point_forward_graph`: pop a
      label, analyse its block, join the output into its successors. */
  method ForwardStep<E, I, X, F(!new)>(lang: Language<E, X>, lat: Lattice<F>, a: ForwardAnalysis<E, I, X, F>,
                                        g: Graph<E, I, X>, entry: Label, facts: map<Label, F>, blockFuel: nat,
                                        corrected: bool, fb: map<Label, F>, toVisit: seq<Label>)
    returns (r: Outcome<(map<Label, F>, seq<Label>)>)
    requires |toVisit| > 0
    requires forall v :: Reachable(lang, g, entry, v) ==> v in g.blocks
    requires DriverInvariant(lang, lat, a, g, entry, facts, blockFuel, corrected, fb, toVisit)
    ensures r.Ok? ==> DriverInvariant(lang, lat, a, g, entry, facts, blockFuel, corrected, r.value.0, r.value.1)
    ensures corrected && Total(lat) ==> r != Panic(SpliceOutOfRange)
  {
    var here := toVisit[|toVisit| - 1];
    var rest := toVisit[..|toVisit| - 1];
    assert rest + [here] == toVisit;
    assert here !in rest by {
      assert forall i :: 0 <= i < |rest| ==> toVisit[i] == rest[i];
    }
    assert Reachable(lang, g, entry, here) by {
      assert here in toVisit;
    }
    // The traversal has already panicked on any reachable label without a
    // block, so the source's skip of labels outside the graph never fires.
    assert Contains(g, here);
    var out := FixedPointForwardBlock(a, g, here, fb, blockFuel, corrected);
    if !out.Ok? {
      return Fail(out);
    }
    var joined := JoinNeighbours(lat, out.value, BlockSuccessors(lang, g.blocks[here]), fb, rest);
    if !joined.Ok? {
      return Fail(joined);
    }
    ProcessKeepsInvariant(lang, lat, a, g, entry, facts, blockFuel, corrected, fb, rest, here, out.value, joined.value.0, joined.value.1);
    r := joined;
  }

  /** `forward_analysis`: the fact base starts as `{entry ↦ entryFact}` and is
      driven to a fixed point; the graph is read, never changed. */
  method ForwardAnalyze<E, I, X, F(!new)>(lang: Language<E, X>, lat: Lattice<F>, a: ForwardAnalysis<E, I, X, F>,
                                           g: Graph<E, I, X>, entry: Label, entryFact: F, blockFuel: nat, fuel: nat)
    returns (r: Outcome<map<Label, F>>)
    ensures (exists v :: Reachable(lang, g, entry, v) && v !in g.blocks) ==> r == Panic(MissingKey)
    ensures r.Ok? ==> forall v :: v in r.value <==> Reachable(lang, g, entry, v)
    ensures r.Ok? && Lawful(lat) ==>
              forall v :: Reachable(lang, g, entry, v) ==> Stable(lang, lat, a, g, blockFuel, false, r.value, v)
  {
    ReachableRefl(lang, g, entry);
    r := FixedPointForwardGraph(lang, lat, a, g, entry, map[entry := entryFact], blockFuel, fuel, false);
  }

  /** `forward_analysis` with `Multiple` replacing the current instruction
      only: the same fixed point, over blocks whose splices never panic. */
  method ForwardAnalyzeCorrected<E, I, X, F(!new)>(lang: Language<E, X>, lat: Lattice<F>, a: ForwardAnalysis<E, I, X, F>,
                                                    g: Graph<E, I, X>, entry: Label, entryFact: F, blockFuel: nat, fuel: nat)
    returns (r: Outcome<map<Label, F>>)
    ensures (exists v :: Reachable(lang, g, entry, v) && v !in g.blocks) ==> r == Panic(MissingKey)
    ensures Total(lat) ==> r != Panic(SpliceOutOfRange)
    ensures r.Ok? ==> forall v :: v in r.value <==> Reachable(lang, g, entry, v)
    ensures r.Ok? && Lawful(lat) ==>
              forall v :: Reachable(lang, g, entry, v) ==> Stable(lang, lat, a, g, blockFuel, true, r.value, v)
  {
    ReachableRefl(lang, g, entry);
    r := FixedPointForwardGraph(lang, lat, a, g, entry, map[entry := entryFact], blockFuel, fuel, true);
  }
}
