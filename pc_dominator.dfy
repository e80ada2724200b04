/** Dominator paths over the per-instruction engine: each instruction hands
    on its incoming path with its own label appended. The lattice is the
    path lattice; as written its `top` is `None`, the same as `bottom`. */
module PcDominator {
  import opened Common
  import opened Lattices
  import opened PcLabels
  import opened PcGraph
  import opened PcFactBase
  import opened PcEngine
  import opened DominatorPaths

  /** `DominatorAnalysis::analyze`: always a new fact, the incoming path
      (or the empty one) with the current label appended. */
  function DominatorAnalysis<I(!new)>(successorsOf: I -> Successors): (a: Analysis<I, Path<Label>>)
    ensures a.successorsOf == successorsOf
    ensures forall g, l, i, f :: a.analyze(g, l, i, f) == Fact(WithLabel(f, l))
  {
    Analysis(successorsOf, (g, l, i, f) => Fact(WithLabel(f, l)))
  }

  /** The pc `DominatorFact` lattice as written: `top()` is `bottom()`. */
  function AsWrittenDominatorLattice(): (lat: PcLattice<Path<Label>>)
    ensures lat.top == lat.lattice.bottom == None
  {
    PcLattice(AsWrittenLattice(), None)
  }

  /** The corrected lattice: the corrected join, and `Some([])` as `top`. */
  function DominatorLattice(): (lat: PcLattice<Path<Label>>)
    ensures lat.lattice == PathLattice() && lat.top == Some([])
  {
    PcLattice(PathLattice(), Some([]))
  }

  /** The as-written `top` is no top: joining any path into it changes it.
      The corrected `top` holds every path. */
  lemma TopIsTop(l: Label)
    ensures !IsTop(AsWrittenDominatorLattice().lattice, AsWrittenDominatorLattice().top)
    ensures IsTop(DominatorLattice().lattice, DominatorLattice().top)
  {
    assert !Absorbs(AsWrittenLattice<Label>(), None, Some([l]));
    PathTop(l);
  }

  /** In the path lattice `a` holds `b` exactly when `b` is `None` or `a`
      is a path that is a prefix of `b`. */
  lemma AbsorbsIsPrefix<L(!new)>(a: Path<L>, b: Path<L>)
    ensures Absorbs(PathLattice(), a, b) <==> b.None? || (a.Some? && b.Some? && IsPrefix(a.value, b.value))
  {
    if a.Some? && b.Some? && IsPrefix(a.value, b.value) {
      assert IsPrefix(a.value, a.value);
      CommonPrefixLongest(a.value, b.value, a.value);
    }
  }

  /** Every successor of `l` has a path, and it is a prefix of the path of
      `l` followed by `l`: every label the successor's path names dominates
      `l` as well. */
  ghost predicate PrefixOfOwnPath<I>(successorsOf: I -> Successors, g: Graph<I>, facts: seq<seq<Path<Label>>>, l: Label,
                                     pcFuel: nat) {
    Holds(facts, l) && GetInstruction(g, l).Ok? &&
    var succ := successorsOf(GetInstruction(g, l).value);
    var mine := WithLabel(At(facts, l), l).value;
    (succ.fallthrough ==>
       NextPcFrom(g, l, pcFuel).Ok? && Holds(facts, NextPcFrom(g, l, pcFuel).value) &&
       At(facts, NextPcFrom(g, l, pcFuel).value).Some? && IsPrefix(At(facts, NextPcFrom(g, l, pcFuel).value).value, mine)) &&
    (forall s :: s in succ.jumps ==> Holds(facts, s) && At(facts, s).Some? && IsPrefix(At(facts, s).value, mine))
  }

  /** A settled label hands each successor a prefix of its own path. */
  lemma SettledDominators<I(!new)>(successorsOf: I -> Successors, g: Graph<I>, facts: seq<seq<Path<Label>>>, l: Label, pcFuel: nat)
    requires Settled(PathLattice(), DominatorAnalysis(successorsOf), g, facts, l, pcFuel)
    ensures PrefixOfOwnPath(successorsOf, g, facts, l, pcFuel)
  {
    var succ := successorsOf(GetInstruction(g, l).value);
    var out := WithLabel(At(facts, l), l);
    if succ.fallthrough {
      AbsorbsIsPrefix(At(facts, NextPcFrom(g, l, pcFuel).value), out);
    }
    forall s | s in succ.jumps
      ensures Holds(facts, s) && At(facts, s).Some? && IsPrefix(At(facts, s).value, out.value)
    {
      AbsorbsIsPrefix(At(facts, s), out);
    }
  }

  /** Running the corrected engine with the corrected dominator lattice:
      every visited label hands each successor a prefix of its own path
      extended with itself, and every label left unvisited has no path. */
  method Dominators<I(!new)>(successorsOf: I -> Successors, g: Graph<I>, fuel: nat, pcFuel: nat)
    returns (r: Outcome<FactBase<Path<Label>>>, ghost visited: set<Label>)
    ensures |g.subGraphs| == 0 || |g.subGraphs[0].nodes| == 0 ==> r == Panic(Unwrap)
    ensures r.Ok? ==> Shaped(r.value.facts, g) && ENTRY in visited
    ensures r.Ok? ==> forall l :: Holds(r.value.facts, l) && l !in visited ==> At(r.value.facts, l) == None
    ensures r.Ok? ==> forall l :: l in visited ==> PrefixOfOwnPath(successorsOf, g, r.value.facts, l, pcFuel)
  {
    PathLatticeLawful<Label>();
    PathLatticeTransitive<Label>();
    r, visited := ForwardAnalyzeCorrected(DominatorLattice(), DominatorAnalysis(successorsOf), g, fuel, pcFuel);
    if r.Ok? {
      forall l | l in visited
        ensures PrefixOfOwnPath(successorsOf, g, r.value.facts, l, pcFuel)
      {
        SettledDominators(successorsOf, g, r.value.facts, l, pcFuel);
      }
    }
  }
}
