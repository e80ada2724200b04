/** Constant propagation over the per-instruction engine, for a small
    register machine. A fact maps variables to what is known of them: no
    entry is bottom (nothing known yet), `Some(None)` is top (not a
    constant), `Some(Some(c))` the constant `c`. */
module PcConstants {
  import opened Common
  import opened Lattices
  import opened PcLabels
  import opened PcGraph
  import opened PcEngine

  /** `Var(usize)`. */
  type Var = usize

  /** `Risc`: the register machine's instructions. */
  datatype Risc =
    | Load(dst: Var, constant: int)             // dst := constant
    | Add(dst: Var, src1: Var, src2: Var)       // dst := src1 + src2
    | Lt(dst: Var, src1: Var, src2: Var)        // dst := if src1 < src2 then 1 else 0
    | Goto(target: Label)                       // goto target
    | JumpZ(src: Var, target: Label)            // if src == 0 then goto target
    | NoOp
    | Ret

  /** `Risc::successors`: `Goto` only jumps, `JumpZ` falls through and
      jumps, `Ret` halts, everything else falls through. */
  function RiscSuccessors(i: Risc): (s: Successors)
    ensures s.fallthrough <==> !(i.Goto? || i.Ret?)
    ensures s.jumps == if i.Goto? || i.JumpZ? then [i.target] else []
  {
    match i
    case Goto(l) => PcLabels.Goto([l])
    case JumpZ(_, l) => Conditional([l])
    case Ret => Halt()
    case _ => FallthroughOnly()
  }

  /** `ConstFact { vars }`. */
  type Vars = map<Var, Option<int>>

  /** `v` is known to hold a constant. */
  predicate IsConst(vars: Vars, v: Var) {
    v in vars && vars[v].Some?
  }

  /** `v` is known not to be a constant. */
  predicate IsTopIn(vars: Vars, v: Var) {
    v in vars && vars[v].None?
  }

  /** `ConstFact::pair(v, c)`: the fact that knows only `v`. */
  function Pair(v: Var, c: Option<int>): (r: Vars)
    ensures r.Keys == {v} && r[v] == c
  {
    map[v := c]
  }

  /** `ConstFact::merge`: `other`'s entries override `self`'s. */
  function Merge(a: Vars, b: Vars): (r: Vars)
    ensures r.Keys == a.Keys + b.Keys
    ensures forall k :: k in r ==> r[k] == if k in b then b[k] else a[k]
  {
    a + b
  }

  /** `ConstFact::lift` as written: both sources constant gives `dst` the
      folded constant, both sources top gives bottom (the empty fact), and
      anything else gives `dst` top. */
  function LiftAsWritten(fact: Vars, dst: Var, src1: Var, src2: Var, op: (int, int) -> int): (r: Vars)
    ensures r.Keys <= {dst}
    ensures r == map[] <==> IsTopIn(fact, src1) && IsTopIn(fact, src2)
    ensures dst in r ==> (r[dst].Some? <==> IsConst(fact, src1) && IsConst(fact, src2))
  {
    if IsConst(fact, src1) && IsConst(fact, src2) then Pair(dst, Some(op(fact[src1].value, fact[src2].value)))
    else if IsTopIn(fact, src1) && IsTopIn(fact, src2) then map[]
    else Pair(dst, None)
  }

  /** `lift` as evidently intended: `dst` gets the folded constant when
      both sources are constants and top otherwise, as the `_` arm already
      says; only the arm for two top sources changes. */
  function Lift(fact: Vars, dst: Var, src1: Var, src2: Var, op: (int, int) -> int): (r: Vars)
    ensures r.Keys == {dst}
    ensures IsConst(fact, src1) && IsConst(fact, src2) ==> r[dst] == Some(op(fact[src1].value, fact[src2].value))
    ensures !(IsConst(fact, src1) && IsConst(fact, src2)) ==> r[dst] == None
  {
    if IsConst(fact, src1) && IsConst(fact, src2) then Pair(dst, Some(op(fact[src1].value, fact[src2].value)))
    else Pair(dst, None)
  }

  /** The corrected `lift` differs from the as-written one only where both
      sources are top. */
  lemma LiftAgrees(fact: Vars, dst: Var, src1: Var, src2: Var, op: (int, int) -> int)
    ensures !(IsTopIn(fact, src1) && IsTopIn(fact, src2)) ==>
      Lift(fact, dst, src1, src2, op) == LiftAsWritten(fact, dst, src1, src2, op)
    ensures IsTopIn(fact, src1) && IsTopIn(fact, src2) ==>
      LiftAsWritten(fact, dst, src1, src2, op) == map[] && Lift(fact, dst, src1, src2, op) == Pair(dst, None)
  {
  }

  /** The closure `|a, b| a + b`, on unbounded integers. */
  function Plus(a: int, b: int): (r: int)
    ensures r - b == a && r - a == b
  {
    a + b
  }

  /** The closure `|a, b| if a < b { 1 } else { 0 }`: the comparison as a
      0/1 flag. */
  function Less(a: int, b: int): (r: int)
    ensures r == 1 <==> a < b
    ensures r == 0 <==> a >= b
  {
    if a < b then 1 else 0
  }

  /** `ConstAnalysis::analyze` as written: `Load` hands on only its own
      variable, and `Add`/`Lt` merge the as-written `lift` into the fact. */
  function AnalyzeAsWritten(g: Graph<Risc>, l: Label, i: Risc, fact: Vars): (r: Rewrite<Risc, Vars>)
    ensures r.Fact? <==> i.Load? || i.Add? || i.Lt?
    ensures i.Load? ==> r.fact.Keys == {i.dst}
    ensures (i.Add? || i.Lt?) ==> forall v :: v in fact && v != i.dst ==> v in r.fact && r.fact[v] == fact[v]
    ensures (i.Add? || i.Lt?) && IsTopIn(fact, i.src1) && IsTopIn(fact, i.src2) ==> r.fact == fact
  {
    match i
    case Load(v, c) => Fact(Pair(v, Some(c)))
    case Add(d, s1, s2) => Fact(Merge(fact, LiftAsWritten(fact, d, s1, s2, Plus)))
    case Lt(d, s1, s2) => Fact(Merge(fact, LiftAsWritten(fact, d, s1, s2, Less)))
    case _ => NoChange
  }

  /** `analyze` as evidently intended: every instruction merges what it
      knows of its destination into the incoming fact, as `Add` and `Lt`
      already do. */
  function Analyze(g: Graph<Risc>, l: Label, i: Risc, fact: Vars): (r: Rewrite<Risc, Vars>)
    ensures r.Fact? <==> i.Load? || i.Add? || i.Lt?
    ensures r.Fact? ==> r.fact.Keys == fact.Keys + {i.dst}
  {
    match i
    case Load(v, c) => Fact(Merge(fact, Pair(v, Some(c))))
    case Add(d, s1, s2) => Fact(Merge(fact, Lift(fact, d, s1, s2, Plus)))
    case Lt(d, s1, s2) => Fact(Merge(fact, Lift(fact, d, s1, s2, Less)))
    case _ => NoChange
  }

  /** The corrected analysis keeps what is known of every variable but the
      destination; the destination is the loaded or folded constant, and
      top unless both sources are constants. Control instructions keep the
      fact. */
  lemma AnalyzeKeepsOthers(g: Graph<Risc>, l: Label, i: Risc, fact: Vars)
    ensures (i.Load? || i.Add? || i.Lt?) <==> Analyze(g, l, i, fact).Fact?
    ensures Analyze(g, l, i, fact).Fact? ==> var out := Analyze(g, l, i, fact).fact;
      out.Keys == fact.Keys + {i.dst} &&
      (forall k :: k in fact && k != i.dst ==> out[k] == fact[k])
    ensures i.Load? ==> Analyze(g, l, i, fact).fact[i.dst] == Some(i.constant)
    ensures (i.Add? || i.Lt?) ==>
      var op := if i.Add? then Plus else Less;
      Analyze(g, l, i, fact).fact[i.dst] ==
        if IsConst(fact, i.src1) && IsConst(fact, i.src2) then Some(op(fact[i.src1].value, fact[i.src2].value)) else None
  {
  }

  /** The two defects of the as-written analysis: after `Load` every other
      variable is forgotten, and an `Add` of two non-constants leaves the
      destination's stale constant in place. */
  lemma AsWrittenForgets(g: Graph<Risc>, l: Label)
    ensures var fact := map[0 := Some(7)];
      AnalyzeAsWritten(g, l, Load(1, 1), fact) == Fact(map[1 := Some(1)]) &&
      Analyze(g, l, Load(1, 1), fact) == Fact(map[0 := Some(7), 1 := Some(1)])
    ensures var fact := map[0 := Some(5), 1 := None, 2 := None];
      AnalyzeAsWritten(g, l, Add(0, 1, 2), fact) == Fact(fact) &&
      Analyze(g, l, Add(0, 1, 2), fact) == Fact(fact[0 := None])
  {
    var fact := map[0 := Some(5), 1 := None, 2 := None];
    assert LiftAsWritten(fact, 0, 1, 2, Plus) == map[];
    assert Merge(fact, map[]) == fact;
    assert Merge(map[0 := Some(7)], Pair(1, Some(1))) == map[0 := Some(7), 1 := Some(1)];
    assert Merge(fact, Pair(0, None)) == fact[0 := None];
  }

  /** One entry of `ConstFact::join`: an absent entry takes `other`'s
      value, a constant that differs from `other`'s becomes top, and top
      stays top. */
  function JoinEntry(a: Vars, k: Var, v: Option<int>): Option<int> {
    if k !in a then v
    else if a[k].Some? && a[k] != v then None
    else a[k]
  }

  /** The entry for `k` changes when joined with `v`. */
  predicate EntryChanges(a: Vars, k: Var, v: Option<int>) {
    k !in a || (a[k].Some? && a[k] != v)
  }

  /** What `ConstFact::join` computes: every key of `b` joined in, keys of
      `a` alone kept, and a change reported when some entry changes. */
  function JoinVars(a: Vars, b: Vars): (r: Joined<Vars>)
    ensures r.fact.Keys == a.Keys + b.Keys
    ensures forall k :: k in a && k !in b ==> r.fact[k] == a[k]
    ensures r.changed <==> exists k :: k in b && EntryChanges(a, k, b[k])
  {
    Joined(map k | k in a.Keys + b.Keys :: if k in b then JoinEntry(a, k, b[k]) else a[k],
           exists k :: k in b && EntryChanges(a, k, b[k]))
  }

  /** The entries of `b` joined into `a` for the keys in `done` only. */
  ghost function JoinedSoFar(a: Vars, b: Vars, done: set<Var>): Vars
    requires done <= b.Keys
  {
    map k | k in a.Keys + done :: if k in done then JoinEntry(a, k, b[k]) else a[k]
  }

  /** `ConstFact`, whose `join` updates `vars` in place. */
  class ConstFact {
    var vars: Vars

    constructor (vars: Vars)
      ensures this.vars == vars
    {
      this.vars := vars;
    }

    /** `join(&mut self, other, label)`: the loop over `other`'s entries. */
    method Join(other: Vars) returns (changed: bool)
      modifies this
      ensures Joined(vars, changed) == JoinVars(old(vars), other)
    {
      ghost var start := vars;
      changed := false;
      var rest := other.Keys;
      while rest != {}
        invariant rest <= other.Keys
        invariant vars == JoinedSoFar(start, other, other.Keys - rest)
        invariant changed <==> exists k :: k in other.Keys - rest && EntryChanges(start, k, other[k])
        decreases rest
      {
        var key :| key in rest;
        var val := other[key];
        if key in vars {
          if vars[key].Some? && vars[key] != val {
            changed := true;
            vars := vars[key := None];
          }
        } else {
          changed := true;
          vars := vars[key := val];
        }
        rest := rest - {key};
      }
      assert other.Keys - rest == other.Keys;
      assert vars == JoinVars(start, other).fact;
    }
  }

  /** The `ConstFact` lattice: `bottom` is the empty fact. */
  function ConstLattice(): (lat: Lattice<Vars>)
    ensures lat.bottom == map[]
  {
    Lattice(map[], (a, b) => Ok(JoinVars(a, b)))
  }

  /** `a` holds `b` exactly when every variable `b` knows of is known to
      `a`, as top or as the same constant. */
  lemma AbsorbsVars(a: Vars, b: Vars)
    ensures Absorbs(ConstLattice(), a, b) <==> forall k :: k in b ==> k in a && (a[k].None? || a[k] == b[k])
  {
    if forall k :: k in b ==> k in a && (a[k].None? || a[k] == b[k]) {
      assert JoinVars(a, b).fact == a;
    }
  }

  /** The join never panics, reports exactly when it changed the fact,
      holds what it joined, keeps holding it, and holding is transitive:
      in particular joining a fact with itself reports no change. */
  lemma ConstLatticeLawful()
    ensures Total(ConstLattice()) && Lawful(ConstLattice()) && Transitive(ConstLattice())
    ensures forall a :: JoinVars(a, a) == Joined(a, false)
  {
    var lat := ConstLattice();
    forall a, b
      ensures JoinVars(a, b).changed <==> JoinVars(a, b).fact != a
    {
      var c := JoinVars(a, b).fact;
      if c != a {
        if c.Keys == a.Keys {
          var k :| k in a && c[k] != a[k];
          assert EntryChanges(a, k, b[k]);
        } else {
          var k :| k in c && k !in a;
          assert EntryChanges(a, k, b[k]);
        }
      }
    }
    forall a, b
      ensures Absorbs(lat, JoinVars(a, b).fact, b)
    {
      AbsorbsVars(JoinVars(a, b).fact, b);
    }
    forall a, b, c | Absorbs(lat, a, b)
      ensures Absorbs(lat, JoinVars(a, c).fact, b)
    {
      AbsorbsVars(a, b);
      AbsorbsVars(JoinVars(a, c).fact, b);
    }
    forall a, b, c | Absorbs(lat, a, b) && Absorbs(lat, b, c)
      ensures Absorbs(lat, a, c)
    {
      AbsorbsVars(a, b);
      AbsorbsVars(b, c);
      AbsorbsVars(a, c);
    }
    forall a
      ensures JoinVars(a, a) == Joined(a, false)
    {
      AbsorbsVars(a, a);
    }
  }

  /** `ConstAnalysis` for the engine, with the corrected `analyze`; the
      entry starts at `top()`, which is `bottom()`. */
  function ConstAnalysis(): (a: Analysis<Risc, Vars>)
    ensures a.successorsOf == RiscSuccessors
  {
    Analysis(RiscSuccessors, Analyze)
  }

  function ConstPcLattice(): (lat: PcLattice<Vars>)
    ensures lat.lattice == ConstLattice() && lat.top == map[]
  {
    PcLattice(ConstLattice(), map[])
  }

  /** Constant propagation run to completion by the corrected engine:
      every visited instruction's outgoing fact is held by each of its
      successors, and every unvisited slot is still empty. */
  method PropagateConstants(g: Graph<Risc>, fuel: nat, pcFuel: nat) returns (r: Outcome<PcFactBase.FactBase<Vars>>, ghost visited: set<Label>)
    ensures |g.subGraphs| == 0 || |g.subGraphs[0].nodes| == 0 ==> r == Panic(Unwrap)
    ensures r.Ok? ==> forall l :: PcFactBase.Holds(r.value.facts, l) && l !in visited ==> PcFactBase.At(r.value.facts, l) == map[]
    ensures r.Ok? ==> forall l :: l in visited ==> Settled(ConstLattice(), ConstAnalysis(), g, r.value.facts, l, pcFuel)
  {
    ConstLatticeLawful();
    r, visited := ForwardAnalyzeCorrected(ConstPcLattice(), ConstAnalysis(), g, fuel, pcFuel);
  }

  /** The program of the `constant_prop` test: count `x0` up in steps of
      `x1 + x1` while it is below `x2`, then return. */
  function ConstantPropProgram(): (code: seq<Risc>)
    ensures |code| == 9 && code[8] == Ret
  {
    [Load(0, 0), Load(1, 1), Load(2, 10), Lt(3, 0, 2), JumpZ(3, Label(0, 8)),
     Add(4, 1, 1), Add(0, 0, 4), Goto(Label(0, 3)), Ret]
  }

  /** The engine as written can never finish that program once the `Ret`
      at 8 is reached: its round panics in `next_pc`, whatever the facts.
      The corrected round at the `Ret` passes nothing on and ends the
      path. */
  lemma ConstantPropRetPanics(facts: seq<seq<Vars>>, ws: set<Label>, pcFuel: nat)
    requires pcFuel > 0
    ensures Step(ConstLattice(), ConstAnalysis(), NewGraph(ConstantPropProgram()), facts, ws, Label(0, 8), pcFuel, false) ==
            Panic(IndexOutOfRange)
    ensures PcFactBase.Holds(facts, Label(0, 8)) ==>
      Step(ConstLattice(), ConstAnalysis(), NewGraph(ConstantPropProgram()), facts, ws, Label(0, 8), pcFuel, true) ==
      Ok(Visit(facts, ws - {Label(0, 8)}, Label(0, 8), false))
  {
    var g := NewGraph(ConstantPropProgram());
    NewGraphWellNumbered(ConstantPropProgram());
    LastInstructionPanics(ConstLattice(), ConstAnalysis(), g, facts, ws, Label(0, 8), pcFuel);
    assert GetInstruction(g, Label(0, 8)) == Ok(Ret);
  }
}
