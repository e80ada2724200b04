/** Constant propagation for the block-level register machine: its
    instructions, the constant fact with its in-place `set` and `join`, and
    the constant folding its analysis performs. A fact maps variables to
    `Top` (not a constant) or `Elem(c)`; a missing variable is bottom. */
module RiscConstants {
  import opened Common
  import opened Lattices
  import opened BlockGraph

  /** `Var(u16)`. */
  newtype Var = x: int | 0 <= x < 0x1_0000

  /** `Constant(usize)`. */
  type Constant = usize

  datatype Arith = Add | Sub | And | Or

  datatype Cond = EQ | NEQ | LT | LTE

  /** `RISC`: `Mark` is `RISC::Label`, `Compute` is `RISC::Arith`,
      `Branch` is `RISC::Cond`. */
  datatype Risc =
    | Mark(here: Label)
    | Load(dst: Var, constant: Constant)
    | Compute(op: Arith, dst: Var, src1: Var, src2: Var)
    | Branch(cond: Cond, left: Var, right: Var, ifTrue: Label, ifFalse: Label)
    | Jump(target: Label)
    | Ret

  /** `RISC::label`: only a label instruction has one. */
  function RiscLabel(i: Risc): (r: Option<Label>)
    ensures r.Some? <==> i.Mark?
    ensures r.Some? ==> r.value == i.here
  {
    match i
    case Mark(l) => Some(l)
    case _ => None
  }

  /** `RISC::successors`: a branch has both targets, a jump its target,
      `Ret` none; the other instructions do not end a block. */
  function RiscSuccessors(i: Risc): (r: Option<seq<Label>>)
    ensures r.Some? <==> i.Branch? || i.Jump? || i.Ret?
    ensures i.Branch? ==> r == Some([i.ifTrue, i.ifFalse])
    ensures i.Jump? ==> r == Some([i.target])
    ensures i.Ret? ==> r == Some([])
  {
    match i
    case Branch(_, _, _, l1, l2) => Some([l1, l2])
    case Jump(l) => Some([l])
    case Ret => Some([])
    case _ => None
  }

  /** Every instruction plays at most one role: it starts a block (has a
      label), ends one (has successors), or sits inside one; only the
      middle instructions can be folded or loaded. */
  lemma OneRole(i: Risc)
    ensures !(RiscLabel(i).Some? && RiscSuccessors(i).Some?)
    ensures RiscLabel(i).None? && RiscSuccessors(i).None? <==> i.Load? || i.Compute?
  {
  }

  datatype WithTop<T> = Top | Elem(value: T)

  type Vars = map<Var, WithTop<Constant>>

  /** One entry of `join`: top on either side gives top, equal constants
      stay, different constants give top, and an absent entry takes
      `other`'s value. */
  function JoinEntry(mine: Option<WithTop<Constant>>, theirs: WithTop<Constant>): WithTop<Constant> {
    match (mine, theirs)
    case (Some(Top), _) => Top
    case (_, Top) => Top
    case (Some(Elem(x)), Elem(y)) => if x == y then Elem(x) else Top
    case (None, _) => theirs
  }

  /** `self.get(k)`. */
  function Lookup(vars: Vars, k: Var): Option<WithTop<Constant>> {
    if k in vars then Some(vars[k]) else None
  }

  /** What `ConstFact::join` computes: each of `b`'s entries joined into
      `a`, and a change reported when some joined entry differs from the
      one `a` had. */
  function JoinVars(a: Vars, b: Vars): (r: Joined<Vars>)
    ensures r.fact.Keys == a.Keys + b.Keys
    ensures forall k :: k in a && k !in b ==> r.fact[k] == a[k]
    ensures r.changed <==> exists k :: k in b && Lookup(a, k) != Some(JoinEntry(Lookup(a, k), b[k]))
  {
    Joined(map k | k in a.Keys + b.Keys :: if k in b then JoinEntry(Lookup(a, k), b[k]) else a[k],
           exists k :: k in b && Lookup(a, k) != Some(JoinEntry(Lookup(a, k), b[k])))
  }

  /** The entries of `b` joined into `a` for the keys in `done` only. */
  ghost function JoinedSoFar(a: Vars, b: Vars, done: set<Var>): Vars
    requires done <= b.Keys
  {
    map k | k in a.Keys + done :: if k in done then JoinEntry(Lookup(a, k), b[k]) else a[k]
  }

  /** `ConstFact`: `set` and `join` update `vars` in place. */
  class ConstFact {
    var vars: Vars

    /** `ConstFact::new`, which is also `bottom()`. */
    constructor ()
      ensures vars == map[]
    {
      vars := map[];
    }

    /** `get`: the entry of `v`, if any. */
    function Get(v: Var): (r: Option<WithTop<Constant>>)
      reads this
      ensures r.Some? <==> v in vars
      ensures r.Some? ==> r.value == vars[v]
    {
      Lookup(vars, v)
    }

    /** `get_const`: the constant of `v`, if it is known to be one. */
    function GetConst(v: Var): (r: Option<Constant>)
      reads this
      ensures r.Some? <==> Get(v).Some? && Get(v).value.Elem?
      ensures r.Some? ==> Get(v) == Some(Elem(r.value))
    {
      if v in vars && vars[v].Elem? then Some(vars[v].value) else None
    }

    /** `set`: `v` holds the constant `c`; nothing else changes. */
    method Set(v: Var, c: Constant)
      modifies this
      ensures vars == old(vars)[v := Elem(c)]
      ensures GetConst(v) == Some(c) && Get(v) == Some(Elem(c))
      ensures forall w :: w != v ==> Get(w) == old(Get(w))
    {
      vars := vars[v := Elem(c)];
    }

    /** `join(&mut self, other, label)`: the loop over `other`'s entries,
        inserting each entry whose joined value differs from the old one. */
    method Join(other: Vars) returns (changed: bool)
      modifies this
      ensures Joined(vars, changed) == JoinVars(old(vars), other)
    {
      ghost var start := vars;
      changed := false;
      var rest := other.Keys;
      while rest != {}
        invariant rest <= other.Keys
        invariant vars == JoinedSoFar(start, other, other.Keys - rest)
        invariant changed <==> exists k :: k in other.Keys - rest && Lookup(start, k) != Some(JoinEntry(Lookup(start, k), other[k]))
        decreases rest
      {
        var k :| k in rest;
        var before := Get(k);
        var after := JoinEntry(before, other[k]);
        if before != Some(after) {
          changed := true;
          vars := vars[k := after];
        }
        rest := rest - {k};
      }
      assert other.Keys - rest == other.Keys;
      assert vars == JoinVars(start, other).fact;
    }
  }

  /** The `ConstFact` lattice: `bottom` is the empty fact. */
  function ConstLattice(): (lat: Lattice<Vars>)
    ensures lat.bottom == map[]
  {
    Lattice(map[], (a, b) => Ok(JoinVars(a, b)))
  }

  /** `a` holds `b` exactly when every variable `b` knows of is known to
      `a`, as top or as the same constant. */
  lemma AbsorbsVars(a: Vars, b: Vars)
    ensures Absorbs(ConstLattice(), a, b) <==> forall k :: k in b ==> k in a && (a[k].Top? || a[k] == b[k])
  {
    if forall k :: k in b ==> k in a && (a[k].Top? || a[k] == b[k]) {
      assert JoinVars(a, b).fact == a;
    }
  }

  /** The join never panics, reports exactly when it inserted or altered an
      entry, holds what it joined, keeps holding it, and holding is
      transitive; joining a fact with a copy of itself reports no change. */
  lemma ConstLatticeLawful()
    ensures Total(ConstLattice()) && Lawful(ConstLattice()) && Transitive(ConstLattice())
    ensures forall a :: JoinVars(a, a) == Joined(a, false)
  {
    var lat := ConstLattice();
    forall a, b
      ensures JoinVars(a, b).changed <==> JoinVars(a, b).fact != a
    {
      var c := JoinVars(a, b).fact;
      if c != a {
        if c.Keys == a.Keys {
          var k :| k in a && c[k] != a[k];
          assert Lookup(a, k) != Some(JoinEntry(Lookup(a, k), b[k]));
        } else {
          var k :| k in c && k !in a;
          assert Lookup(a, k) != Some(JoinEntry(Lookup(a, k), b[k]));
        }
      }
    }
    forall a, b
      ensures Absorbs(lat, JoinVars(a, b).fact, b)
    {
      AbsorbsVars(JoinVars(a, b).fact, b);
    }
    forall a, b, c | Absorbs(lat, a, b)
      ensures Absorbs(lat, JoinVars(a, c).fact, b)
    {
      AbsorbsVars(a, b);
      AbsorbsVars(JoinVars(a, c).fact, b);
    }
    forall a, b, c | Absorbs(lat, a, b) && Absorbs(lat, b, c)
      ensures Absorbs(lat, a, c)
    {
      AbsorbsVars(a, b);
      AbsorbsVars(b, c);
      AbsorbsVars(a, c);
    }
    forall a
      ensures JoinVars(a, a) == Joined(a, false)
    {
      AbsorbsVars(a, a);
    }
  }

  /** Bitwise `&` of two naturals, bit by bit from the lowest. */
  function BitAnd(a: nat, b: nat): (r: nat)
    ensures r <= a && r <= b
  {
    if a == 0 || b == 0 then 0 else 2 * BitAnd(a / 2, b / 2) + (a % 2) * (b % 2)
  }

  /** Bitwise `|` of two naturals, bit by bit from the lowest. */
  function BitOr(a: nat, b: nat): (r: nat)
    ensures a <= r && b <= r
  {
    if a == 0 then b
    else if b == 0 then a
    else 2 * BitOr(a / 2, b / 2) + (if a % 2 == 1 || b % 2 == 1 then 1 else 0)
  }

  function Pow2(n: nat): (r: nat)
    ensures r > 0
  {
    if n == 0 then 1 else 2 * Pow2(n - 1)
  }

  lemma {:induction false} Pow2Add(m: nat, n: nat)
    ensures Pow2(m + n) == Pow2(m) * Pow2(n)
  {
    if m > 0 {
      Pow2Add(m - 1, n);
    }
  }

  /** A `usize` has 64 bits. */
  lemma Pow2Word()
    ensures Pow2(64) == 0x1_0000_0000_0000_0000
  {
    assert Pow2(4) == 16;
    Pow2Add(4, 4);
    assert Pow2(8) == 0x100;
    Pow2Add(8, 8);
    assert Pow2(16) == 0x1_0000;
    Pow2Add(16, 16);
    assert Pow2(32) == 0x1_0000_0000;
    Pow2Add(32, 32);
  }

  /** `|` of two numbers of `n` bits has `n` bits. */
  lemma {:induction false} BitOrBelow(a: nat, b: nat, n: nat)
    requires a < Pow2(n) && b < Pow2(n)
    ensures BitOr(a, b) < Pow2(n)
  {
    if a != 0 && b != 0 {
      BitOrBelow(a / 2, b / 2, n - 1);
    }
  }

  /** The `usize` arithmetic of the folding, with debug-build overflow
      checks: `+` past the largest `usize` and `-` below zero panic; `&` and
      `|` are bitwise and cannot leave the 64 bits. */
  function Fold(op: Arith, c1: Constant, c2: Constant): (r: Outcome<Constant>)
    ensures op.And? ==> r.Ok? && r.value as nat == BitAnd(c1 as nat, c2 as nat)
    ensures op.Or? ==> r.Ok? && r.value as nat == BitOr(c1 as nat, c2 as nat)
  {
    match op
    case Add => if (c1 as int) + (c2 as int) < 0x1_0000_0000_0000_0000 then Ok(c1 + c2) else Panic(Overflow)
    case Sub => if c2 <= c1 then Ok(c1 - c2) else Panic(Overflow)
    case And => Ok(BitAnd(c1 as nat, c2 as nat) as Constant)
    case Or =>
      Pow2Word();
      BitOrBelow(c1 as nat, c2 as nat, 64);
      Ok(BitOr(c1 as nat, c2 as nat) as Constant)
  }

  /** Folding `+` and `-` undo each other, and exactly the overflowing sum
      and the negative difference panic. */
  lemma FoldArithLaws(a: Constant, b: Constant)
    ensures Fold(Add, a, b).Ok? ==> Fold(Sub, Fold(Add, a, b).value, b) == Ok(a)
    ensures Fold(Sub, a, b).Ok? ==> Fold(Add, Fold(Sub, a, b).value, b) == Ok(a)
    ensures Fold(Add, a, b).Panic? <==> (a as int) + (b as int) >= 0x1_0000_0000_0000_0000
    ensures Fold(Sub, a, b).Panic? <==> a < b
  {
  }

  /** The lowest bit and the rest of an `|`. */
  lemma BitOrHalves(a: nat, b: nat)
    ensures BitOr(a, b) / 2 == BitOr(a / 2, b / 2)
    ensures BitOr(a, b) % 2 == if a % 2 == 1 || b % 2 == 1 then 1 else 0
  {
  }

  /** `a & (a | b)` is `a`. */
  lemma {:induction false} AndAbsorbsOr(a: nat, b: nat)
    ensures BitAnd(a, BitOr(a, b)) == a
  {
    if a != 0 {
      BitOrHalves(a, b);
      AndAbsorbsOr(a / 2, b / 2);
    }
  }

  /** Folding `&` into an `|` with the same operand gives that operand. */
  lemma FoldAndOr(a: Constant, b: Constant)
    ensures Fold(And, a, Fold(Or, a, b).value) == Ok(a)
  {
    AndAbsorbsOr(a as nat, b as nat);
  }

  /** What `ConstantPropagation::analyze` hands back: the fact after the
      instruction and, when it asks for one, the single instruction that
      replaces it. */
  datatype Step = Step(vars: Vars, replacement: Option<Risc>)

  /** Both sources of a computation are known constants. */
  predicate Foldable(vars: Vars, i: Risc)
    requires i.Compute?
  {
    i.src1 in vars && vars[i.src1].Elem? && i.src2 in vars && vars[i.src2].Elem?
  }

  /** `ConstantPropagation::analyze` as written: a load records its
      constant; a computation on two constants is replaced by a load of the
      folded value; any other instruction changes nothing, so a
      computation on a non-constant leaves its destination's entry as it
      was. */
  function AnalyzeAsWritten(vars: Vars, i: Risc): (r: Outcome<Step>)
    ensures r.Ok? && i.Load? ==> r.value.vars == vars[i.dst := Elem(i.constant)]
    ensures r.Ok? && !i.Load? ==> r.value.vars == vars
  {
    match i
    case Load(v, c) => Ok(Step(vars[v := Elem(c)], None))
    case Compute(op, d, s1, s2) =>
      if Foldable(vars, i) then
        var folded := Fold(op, vars[s1].value, vars[s2].value);
        if folded.Ok? then Ok(Step(vars, Some(Load(d, folded.value)))) else Fail(folded)
      else Ok(Step(vars, None))
    case _ => Ok(Step(vars, None))
  }

  /** `analyze` as evidently intended: a computation that cannot be folded
      makes its destination top. */
  function Analyze(vars: Vars, i: Risc): (r: Outcome<Step>)
    ensures r.Ok? ==> forall v :: v in vars && !((i.Load? || i.Compute?) && v == i.dst) ==>
                        v in r.value.vars && r.value.vars[v] == vars[v]
    ensures r.Ok? && i.Load? ==> i.dst in r.value.vars && r.value.vars[i.dst] == Elem(i.constant)
    ensures r.Ok? && i.Compute? && r.value.replacement.None? ==> i.dst in r.value.vars && r.value.vars[i.dst] == Top
  {
    match i
    case Load(v, c) => Ok(Step(vars[v := Elem(c)], None))
    case Compute(op, d, s1, s2) =>
      if Foldable(vars, i) then
        var folded := Fold(op, vars[s1].value, vars[s2].value);
        if folded.Ok? then Ok(Step(vars, Some(Load(d, folded.value)))) else Fail(folded)
      else Ok(Step(vars[d := Top], None))
    case _ => Ok(Step(vars, None))
  }

  /** The fact after an instruction once a requested replacement has been
      analysed in its place, as the engine does. */
  function Outgoing(vars: Vars, i: Risc): Outcome<Vars> {
    var s := Analyze(vars, i);
    if !s.Ok? then Fail(s)
    else if s.value.replacement.Some? then
      var again := Analyze(s.value.vars, s.value.replacement.value);
      if again.Ok? then Ok(again.value.vars) else Fail(again)
    else Ok(s.value.vars)
  }

  /** Only a foldable computation is replaced, by a load of its folded
      value into its destination, and the fact itself is not changed by
      that step; a load records its constant and asks for nothing; the
      instructions that start or end blocks change nothing. Only an
      overflowing fold panics. */
  lemma AnalyzeFolds(vars: Vars, i: Risc)
    ensures Analyze(vars, i).Panic? <==>
      i.Compute? && Foldable(vars, i) && Fold(i.op, vars[i.src1].value, vars[i.src2].value).Panic?
    ensures Analyze(vars, i).Ok? && Analyze(vars, i).value.replacement.Some? <==>
      i.Compute? && Foldable(vars, i) && Fold(i.op, vars[i.src1].value, vars[i.src2].value).Ok?
    ensures Analyze(vars, i).Ok? && Analyze(vars, i).value.replacement.Some? ==>
      Analyze(vars, i).value == Step(vars, Some(Load(i.dst, Fold(i.op, vars[i.src1].value, vars[i.src2].value).value)))
    ensures i.Load? ==> Analyze(vars, i) == Ok(Step(vars[i.dst := Elem(i.constant)], None))
    ensures RiscLabel(i).Some? || RiscSuccessors(i).Some? ==> Analyze(vars, i) == Ok(Step(vars, None))
  {
  }

  /** After a computation, once its replacement is analysed, the
      destination holds the folded constant when both sources were
      constants and top otherwise; every other variable keeps its entry. */
  lemma {:induction false} ComputeOutgoing(vars: Vars, i: Risc)
    requires i.Compute? && Outgoing(vars, i).Ok?
    ensures var out := Outgoing(vars, i).value;
      out.Keys == vars.Keys + {i.dst} &&
      (forall k :: k in vars && k != i.dst ==> out[k] == vars[k]) &&
      out[i.dst] == if Foldable(vars, i) then Elem(Fold(i.op, vars[i.src1].value, vars[i.src2].value).value) else Top
  {
    AnalyzeFolds(vars, i);
    if Foldable(vars, i) {
      var c := Fold(i.op, vars[i.src1].value, vars[i.src2].value).value;
      AnalyzeFolds(vars, Load(i.dst, c));
    }
  }

  /** As written, adding two non-constants leaves the destination's
      earlier constant in place: `x0` stays 5 after `x0 := x1 + x2`. */
  lemma AsWrittenKeepsStaleConstant()
    ensures var vars: Vars := map[0 := Elem(5), 1 := Top, 2 := Top];
      AnalyzeAsWritten(vars, Compute(Add, 0, 1, 2)) == Ok(Step(vars, None)) &&
      vars[0] == Elem(5) &&
      Analyze(vars, Compute(Add, 0, 1, 2)) == Ok(Step(vars[0 := Top], None))
  {
    var vars: Vars := map[0 := Elem(5), 1 := Top, 2 := Top];
    assert !Foldable(vars, Compute(Add, 0, 1, 2));
  }
}
