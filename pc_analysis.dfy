/** The per-instruction forward engine (`pc::forward_analyze`). The entry
    starts at `top`, every other slot at `bottom`; a working set of labels
    is drained by following paths: an instruction whose fallthrough fact
    changes is followed straight away, and jump targets whose fact changes
    go back into the working set. */
module PcEngine {
  import opened Common
  import opened Lattices
  import opened PcLabels
  import opened PcGraph
  import opened PcFactBase

  /** `Rewrite`: keep the instruction and its incoming fact, hand on a new
      fact, or replace the instruction (not implemented by the engine). */
  datatype Rewrite<I, F> = NoChange | Fact(fact: F) | Single(inst: I) | Many(insts: seq<I>)

  /** The pc `Lattice` trait: `bottom` and `join` (its label argument only
      names the slot and is dropped), and `top`, the fact the entry starts
      with. */
  datatype PcLattice<!F> = PcLattice(lattice: Lattice<F>, top: F)

  /** The `Instruction` trait's `successors` and the `Analysis` trait's
      `analyze`. */
  datatype Analysis<!I, !F> = Analysis(successorsOf: I -> Successors, analyze: (Graph<I>, Label, I, F) -> Rewrite<I, F>)

  /** The engine between two rounds of its `'path` loop: the facts, the
      working set, the current pc, and whether the path goes on from it. */
  datatype Visit<F> = Visit(facts: seq<seq<F>>, ws: set<Label>, pc: Label, onPath: bool)

  /** The fallthrough half of the `NoChange` and `Fact` arms: an instruction
      that falls through joins `out` into the fact of `ft`; a change moves
      the path on to `ft`, no change asks for a new pc, and so does an
      instruction that does not fall through. The result is the new rows,
      the pc, and whether a new pc is needed. */
  function FallThrough<F>(lat: Lattice<F>, facts: seq<seq<F>>, fallthrough: bool, ft: Label, pc: Label, out: F)
    : (r: Outcome<(seq<seq<F>>, Label, bool)>)
    requires Holds(facts, ft)
    ensures !fallthrough ==> r == Ok((facts, pc, true))
    ensures r.Ok? ==> SameShape(facts, r.value.0) && r.value.1 == (if r.value.2 then pc else ft)
  {
    if !fallthrough then Ok((facts, pc, true))
    else
      var j := JoinAt(lat, facts, ft, out);
      if !j.Ok? then Fail(j)
      else if j.value.1 then Ok((j.value.0, ft, false))
      else Ok((j.value.0, pc, true))
  }

  /** One jump target `s` of the instruction at `pc`: `NoChange` joins the
      fact of `pc` into it through `get_disjoint(s, pc)` (so a jump to `pc`
      itself panics), `Fact` joins the new fact through `get_mut(s)`. A
      target without a slot fails its `unwrap`. */
  function JumpJoin<I, F>(lat: Lattice<F>, facts: seq<seq<F>>, s: Label, pc: Label, rw: Rewrite<I, F>)
    : (r: Outcome<(seq<seq<F>>, bool)>)
    requires rw.NoChange? || rw.Fact?
    ensures !Holds(facts, s) ==> r == Panic(Unwrap)
    ensures rw.NoChange? && s == pc && Holds(facts, pc) ==> r == Panic(IndexOutOfRange)
    ensures r.Ok? && rw.NoChange? ==> Holds(facts, s) && Holds(facts, pc) && s != pc && r == JoinAt(lat, facts, s, At(facts, pc))
    ensures r.Ok? && rw.Fact? ==> Holds(facts, s) && r == JoinAt(lat, facts, s, rw.fact)
  {
    if rw.NoChange? then
      var d := GetDisjoint(facts, s, pc);
      if !d.Ok? then Fail(d)
      else if d.value.None? then Panic(Unwrap)
      else JoinAt(lat, facts, d.value.value.0, d.value.value.1)
    else
      var m := GetMut(facts, s);
      if m.None? then Panic(Unwrap)
      else JoinAt(lat, facts, m.value, rw.fact)
  }

  /** The `for successor in successors.jumps` loop: join into each target
      in turn; a target whose fact changed goes into the working set, as
      written only when it is not the current pc (`corrected` drops
      that exception). */
  function Jumps<I, F>(lat: Lattice<F>, facts: seq<seq<F>>, ws: set<Label>, pc: Label, jumps: seq<Label>,
                       rw: Rewrite<I, F>, corrected: bool): (r: Outcome<(seq<seq<F>>, set<Label>)>)
    requires rw.NoChange? || rw.Fact?
    ensures r.Ok? ==> SameShape(facts, r.value.0) && ws <= r.value.1
    decreases |jumps|
  {
    if jumps == [] then Ok((facts, ws))
    else
      var s := jumps[0];
      var j := JumpJoin(lat, facts, s, pc, rw);
      if !j.Ok? then Fail(j)
      else
        var ws' := if j.value.1 && (corrected || s != pc) then ws + {s} else ws;
        Jumps(lat, j.value.0, ws', pc, jumps[1..], rw, corrected)
  }

  /** The two slots a round works on: the fallthrough label and the fact
      of `pc`. As written, `next_pc` is computed for every instruction and
      both are fetched through `get_disjoint(next, pc)`, so an instruction
      at the end of its region panics even when it never falls through.
      `corrected` computes `next_pc` only when the instruction falls
      through and otherwise reads the fact of `pc` alone (the fallthrough
      label is then unused and given as `pc`). */
  function Fetch<I, F>(g: Graph<I>, facts: seq<seq<F>>, pc: Label, pcFuel: nat, fallthrough: bool, corrected: bool)
    : (r: Outcome<(Label, F)>)
    ensures r.Ok? ==> Holds(facts, pc) && Holds(facts, r.value.0) && r.value.1 == At(facts, pc)
    ensures r.Ok? && (fallthrough || !corrected) ==> NextPcFrom(g, pc, pcFuel) == Ok(r.value.0) && r.value.0 != pc
    ensures corrected && !fallthrough ==> (r.Ok? <==> Holds(facts, pc)) && (r.Ok? ==> r.value.0 == pc)
    ensures (fallthrough || !corrected) && !NextPcFrom(g, pc, pcFuel).Ok? ==> r == Fail(NextPcFrom(g, pc, pcFuel))
  {
    if corrected && !fallthrough then
      var c := Get(facts, pc);
      if c.None? then Panic(Unwrap) else Ok((pc, c.value))
    else
      var ft := NextPcFrom(g, pc, pcFuel);
      if !ft.Ok? then Fail(ft)
      else
        var d := GetDisjoint(facts, ft.value, pc);
        if !d.Ok? then Fail(d)
        else if d.value.None? then Panic(Unwrap)
        else Ok((ft.value, d.value.value.1))
  }

  /** One round of the `'path` loop at `pc`: take `pc` out of the working
      set, fetch its instruction, fetch the slots, analyze, and pass the
      fact on. */
  function Step<I, F>(lat: Lattice<F>, a: Analysis<I, F>, g: Graph<I>, facts: seq<seq<F>>, ws: set<Label>,
                      pc: Label, pcFuel: nat, corrected: bool): (r: Outcome<Visit<F>>)
    ensures r.Ok? ==> SameShape(facts, r.value.facts) && ws - {pc} <= r.value.ws
    ensures r.Ok? ==> GetInstruction(g, pc).Ok? && Holds(facts, pc)
    ensures r.Ok? && (a.successorsOf(GetInstruction(g, pc).value).fallthrough || !corrected) ==> NextPcFrom(g, pc, pcFuel).Ok?
  {
    var ws1 := ws - {pc};
    var inst := GetInstruction(g, pc);
    if !inst.Ok? then Fail(inst)
    else
      var succ := a.successorsOf(inst.value);
      var fetched := Fetch(g, facts, pc, pcFuel, succ.fallthrough, corrected);
      if !fetched.Ok? then Fail(fetched)
      else
        var (ft, current) := fetched.value;
        var rw := a.analyze(g, pc, inst.value, current);
        if rw.Single? || rw.Many? then Panic(Unimplemented)
        else
          var out := if rw.Fact? then rw.fact else current;
          var f := FallThrough(lat, facts, succ.fallthrough, ft, pc, out);
          if !f.Ok? then Fail(f)
          else
            var (facts2, pc2, stop) := f.value;
            var j := Jumps(lat, facts2, ws1, pc2, succ.jumps, rw, corrected);
            if !j.Ok? then Fail(j)
            else Ok(Visit(j.value.0, j.value.1, pc2, !stop))
  }

  /** The fact `l` hands on is held by every successor: the analysis of
      its instruction at its current fact keeps or replaces the fact, the
      fallthrough (when the instruction falls through) holds the result,
      and so does every jump target. */
  ghost predicate Settled<I, F(!new)>(lat: Lattice<F>, a: Analysis<I, F>, g: Graph<I>, facts: seq<seq<F>>, l: Label, pcFuel: nat) {
    Holds(facts, l) && GetInstruction(g, l).Ok? &&
    var inst := GetInstruction(g, l).value;
    var succ := a.successorsOf(inst);
    var rw := a.analyze(g, l, inst, At(facts, l));
    (rw.NoChange? || rw.Fact?) &&
    var out := if rw.Fact? then rw.fact else At(facts, l);
    (succ.fallthrough ==>
       NextPcFrom(g, l, pcFuel).Ok? && Holds(facts, NextPcFrom(g, l, pcFuel).value) &&
       Absorbs(lat, At(facts, NextPcFrom(g, l, pcFuel).value), out)) &&
    (forall s :: s in succ.jumps ==> Holds(facts, s) && Absorbs(lat, At(facts, s), out))
  }

  lemma GrowsTransitive<F(!new)>(lat: Lattice<F>, f1: seq<seq<F>>, f2: seq<seq<F>>, f3: seq<seq<F>>)
    requires Grows(lat, f1, f2) && Grows(lat, f2, f3)
    ensures Grows(lat, f1, f3)
  {
  }

  /** A settled label stays settled while its own fact stays the same and
      every other fact only grows. */
  lemma SettledKept<I, F(!new)>(lat: Lattice<F>, a: Analysis<I, F>, g: Graph<I>, f1: seq<seq<F>>, f2: seq<seq<F>>,
                                l: Label, pcFuel: nat)
    requires Settled(lat, a, g, f1, l, pcFuel) && Grows(lat, f1, f2) && At(f2, l) == At(f1, l)
    ensures Settled(lat, a, g, f2, l, pcFuel)
  {
  }

  /** The jump loop under a lawful lattice: facts only grow, every target
      holds what was sent to it, and a slot whose fact changed is in the
      working set (or, as written, is the current pc). `NoChange` leaves
      the fact of `pc` alone. */
  lemma {:induction false} JumpsLawful<I, F(!new)>(lat: Lattice<F>, facts: seq<seq<F>>, ws: set<Label>, pc: Label,
                                                   jumps: seq<Label>, rw: Rewrite<I, F>, corrected: bool)
    requires Lawful(lat) && (rw.NoChange? || rw.Fact?) && Holds(facts, pc)
    requires Jumps(lat, facts, ws, pc, jumps, rw, corrected).Ok?
    ensures var (facts', ws') := Jumps(lat, facts, ws, pc, jumps, rw, corrected).value;
      var sent := if rw.Fact? then rw.fact else At(facts, pc);
      Grows(lat, facts, facts') &&
      (forall s :: s in jumps ==> Holds(facts, s) && Absorbs(lat, At(facts', s), sent)) &&
      (forall l :: Holds(facts, l) && At(facts', l) != At(facts, l) ==> l in ws' || (l == pc && !corrected)) &&
      (rw.NoChange? ==> At(facts', pc) == At(facts, pc))
    decreases |jumps|
  {
    if jumps != [] {
      var s := jumps[0];
      var sent := if rw.Fact? then rw.fact else At(facts, pc);
      var (facts1, changed) := JumpJoin(lat, facts, s, pc, rw).value;
      JoinAtLawful(lat, facts, s, sent);
      var ws1 := if changed && (corrected || s != pc) then ws + {s} else ws;
      JumpsLawful(lat, facts1, ws1, pc, jumps[1..], rw, corrected);
      var (facts', ws') := Jumps(lat, facts1, ws1, pc, jumps[1..], rw, corrected).value;
      GrowsTransitive(lat, facts, facts1, facts');
      forall t | t in jumps
        ensures Holds(facts, t) && Absorbs(lat, At(facts', t), sent)
      {
        if t != s {
          assert t in jumps[1..];
        }
      }
    }
  }

  /** One round under a lawful lattice: facts only grow; a slot whose fact
      changed is in the new working set, is the pc the path goes on from,
      or (as written) is `pc` itself; and when the fact of `pc` is what it
      was, `pc` is settled, given a transitive lattice. */
  lemma StepLawful<I, F(!new)>(lat: Lattice<F>, a: Analysis<I, F>, g: Graph<I>, facts: seq<seq<F>>, ws: set<Label>,
                               pc: Label, pcFuel: nat, corrected: bool)
    requires Lawful(lat) && Step(lat, a, g, facts, ws, pc, pcFuel, corrected).Ok?
    ensures var v := Step(lat, a, g, facts, ws, pc, pcFuel, corrected).value;
      Grows(lat, facts, v.facts) &&
      (forall l :: Holds(facts, l) && At(v.facts, l) != At(facts, l) ==>
         l in v.ws || (v.onPath && l == v.pc) || (l == pc && !corrected)) &&
      (Transitive(lat) && At(v.facts, pc) == At(facts, pc) ==> Settled(lat, a, g, v.facts, pc, pcFuel))
  {
    var v := Step(lat, a, g, facts, ws, pc, pcFuel, corrected).value;
    var inst := GetInstruction(g, pc).value;
    var succ := a.successorsOf(inst);
    var ft := Fetch(g, facts, pc, pcFuel, succ.fallthrough, corrected).value.0;
    var current := At(facts, pc);
    var rw := a.analyze(g, pc, inst, current);
    var out := if rw.Fact? then rw.fact else current;
    var (facts2, pc2, stop) := FallThrough(lat, facts, succ.fallthrough, ft, pc, out).value;
    if succ.fallthrough {
      JoinAtLawful(lat, facts, ft, out);
    }
    assert Holds(facts2, pc2);
    JumpsLawful(lat, facts2, ws - {pc}, pc2, succ.jumps, rw, corrected);
    GrowsTransitive(lat, facts, facts2, v.facts);
    if Transitive(lat) && At(v.facts, pc) == At(facts, pc) {
      var sent := if rw.Fact? then rw.fact else At(facts2, pc2);
      forall s | s in succ.jumps
        ensures Holds(v.facts, s) && Absorbs(lat, At(v.facts, s), out)
      {
        if rw.NoChange? && pc2 != pc {
          assert Absorbs(lat, At(v.facts, s), At(facts2, ft));
        }
      }
    }
  }

  /** `l` is waiting: in the working set, or the pc the path goes on from. */
  predicate Pending(ws: set<Label>, pc: Label, onPath: bool, l: Label) {
    l in ws || (onPath && l == pc)
  }

  /** What holds between rounds: the rows keep the graph's shape and only
      grow from `start`; the entry has been visited or is waiting; a slot
      neither visited nor waiting still has its starting fact; and, when
      changed jump targets are always requeued, every visited label that
      is not waiting is settled. */
  ghost predicate EngineInvariant<I, F(!new)>(lat: Lattice<F>, a: Analysis<I, F>, g: Graph<I>, start: seq<seq<F>>,
                                              facts: seq<seq<F>>, ws: set<Label>, pc: Label, onPath: bool,
                                              visited: set<Label>, pcFuel: nat, corrected: bool) {
    Shaped(facts, g) && SameShape(start, facts) &&
    (ENTRY in visited || Pending(ws, pc, onPath, ENTRY)) &&
    (Lawful(lat) ==> Grows(lat, start, facts)) &&
    (Lawful(lat) ==> forall l :: Holds(facts, l) && l !in visited && !Pending(ws, pc, onPath, l) ==> At(facts, l) == At(start, l)) &&
    (Lawful(lat) && Transitive(lat) && corrected ==>
       forall l :: l in visited && !Pending(ws, pc, onPath, l) ==> Settled(lat, a, g, facts, l, pcFuel))
  }

  /** A round from a waiting `pc` keeps the invariant, with `pc` visited. */
  lemma StepKeepsInvariant<I, F(!new)>(lat: Lattice<F>, a: Analysis<I, F>, g: Graph<I>, start: seq<seq<F>>,
                                       facts: seq<seq<F>>, ws: set<Label>, pc: Label, onPath: bool,
                                       visited: set<Label>, pcFuel: nat, corrected: bool)
    requires EngineInvariant(lat, a, g, start, facts, ws, pc, onPath, visited, pcFuel, corrected)
    requires Pending(ws, pc, onPath, pc)
    requires Step(lat, a, g, facts, ws, pc, pcFuel, corrected).Ok?
    ensures var v := Step(lat, a, g, facts, ws, pc, pcFuel, corrected).value;
      EngineInvariant(lat, a, g, start, v.facts, v.ws, v.pc, v.onPath, visited + {pc}, pcFuel, corrected)
  {
    var v := Step(lat, a, g, facts, ws, pc, pcFuel, corrected).value;
    if Lawful(lat) {
      StepLawful(lat, a, g, facts, ws, pc, pcFuel, corrected);
      GrowsTransitive(lat, start, facts, v.facts);
      forall l | Holds(v.facts, l) && l !in visited + {pc} && !Pending(v.ws, v.pc, v.onPath, l)
        ensures At(v.facts, l) == At(start, l)
      {
        assert !Pending(ws, pc, onPath, l);
      }
      if Transitive(lat) && corrected {
        forall l | l in visited + {pc} && !Pending(v.ws, v.pc, v.onPath, l)
          ensures Settled(lat, a, g, v.facts, l, pcFuel)
        {
          if l != pc {
            assert !Pending(ws, pc, onPath, l);
            SettledKept(lat, a, g, facts, v.facts, l, pcFuel);
          }
        }
      }
    }
  }

  /** The `for successor in successors.jumps` loop over the fact base. */
  method JoinJumps<I, F>(fb: FactBase<F>, lat: Lattice<F>, ws: set<Label>, pc: Label, jumps: seq<Label>,
                         rw: Rewrite<I, F>, corrected: bool) returns (r: Outcome<set<Label>>)
    requires rw.NoChange? || rw.Fact?
    modifies fb
    ensures var j := Jumps(lat, old(fb.facts), ws, pc, jumps, rw, corrected);
      (r.Ok? <==> j.Ok?) && (j.Ok? ==> r.value == j.value.1 && fb.facts == j.value.0) && (!j.Ok? ==> r == Fail(j))
  {
    var queue := ws;
    for k := 0 to |jumps|
      invariant Jumps(lat, fb.facts, queue, pc, jumps[k..], rw, corrected) == Jumps(lat, old(fb.facts), ws, pc, jumps, rw, corrected)
    {
      assert jumps[k..][1..] == jumps[k + 1..];
      var s := jumps[k];
      var slot, other;
      if rw.NoChange? {
        var d := GetDisjoint(fb.facts, s, pc);
        if !d.Ok? {
          return Fail(d);
        }
        if d.value.None? {
          return Panic(Unwrap);
        }
        slot, other := d.value.value.0, d.value.value.1;
      } else {
        var m := GetMut(fb.facts, s);
        if m.None? {
          return Panic(Unwrap);
        }
        slot, other := m.value, rw.fact;
      }
      var changed := fb.Join(lat, slot, other);
      if !changed.Ok? {
        return Fail(changed);
      }
      if changed.value && (corrected || s != pc) {
        queue := queue + {s};
      }
    }
    r := Ok(queue);
  }

  /** One round of the `'path` loop over the fact base: the new working
      set, pc and path flag, as `Step` describes them. */
  method ProcessPc<I, F>(fb: FactBase<F>, lat: Lattice<F>, a: Analysis<I, F>, g: Graph<I>, ws: set<Label>, pc: Label,
                         pcFuel: nat, corrected: bool) returns (r: Outcome<(set<Label>, Label, bool)>)
    modifies fb
    ensures var s := Step(lat, a, g, old(fb.facts), ws, pc, pcFuel, corrected);
      (r.Ok? <==> s.Ok?) && (s.Ok? ==> r.value == (s.value.ws, s.value.pc, s.value.onPath) && fb.facts == s.value.facts) &&
      (!s.Ok? ==> r == Fail(s))
  {
    var ws1 := ws - {pc};
    var inst := GetInstruction(g, pc);
    if !inst.Ok? {
      return Fail(inst);
    }
    var successors := a.successorsOf(inst.value);
    var ft, current;
    if corrected && !successors.fallthrough {
      var c := Get(fb.facts, pc);
      if c.None? {
        return Panic(Unwrap);
      }
      ft, current := pc, c.value;
    } else {
      var nextPc := NextPc(g, pc, pcFuel);
      if !nextPc.Ok? {
        return Fail(nextPc);
      }
      var d := GetDisjoint(fb.facts, nextPc.value, pc);
      if !d.Ok? {
        return Fail(d);
      }
      if d.value.None? {
        return Panic(Unwrap);
      }
      ft, current := d.value.value.0, d.value.value.1;
    }
    var rw := a.analyze(g, pc, inst.value, current);
    if rw.Single? || rw.Many? {
      return Panic(Unimplemented);
    }
    var out := if rw.Fact? then rw.fact else current;
    var next, needNewPc := pc, !successors.fallthrough;
    if successors.fallthrough {
      var changed := fb.Join(lat, ft, out);
      if !changed.Ok? {
        return Fail(changed);
      }
      if changed.value {
        next := ft;
      } else {
        needNewPc := true;
      }
    }
    var queue := JoinJumps(fb, lat, ws1, next, successors.jumps, rw, corrected);
    if !queue.Ok? {
      return Fail(queue);
    }
    r := Ok((queue.value, next, !needNewPc));
  }

  /** `forward_analyze` with a budget of `fuel` rounds of the `'path`
      loop and `pcFuel` rounds of each `next_pc`. The labels it visits are
      returned alongside. An empty program fails the `unwrap` of the entry
      slot. A run that finishes leaves the rows shaped like the graph, the
      entry visited, every fact holding at least what it started with, and
      every unvisited slot at `bottom`; when changed jump targets are
      always requeued, every visited label is settled. */
  method Drive<I, F(!new)>(lat: PcLattice<F>, a: Analysis<I, F>, g: Graph<I>, fuel: nat, pcFuel: nat, corrected: bool)
    returns (r: Outcome<FactBase<F>>, ghost visited: set<Label>)
    ensures |g.subGraphs| == 0 || |g.subGraphs[0].nodes| == 0 ==> r == Panic(Unwrap)
    ensures r.Ok? ==> Shaped(r.value.facts, g) && ENTRY in visited
    ensures r.Ok? && Lawful(lat.lattice) ==>
      Grows(lat.lattice, Put(BottomFacts(g, lat.lattice.bottom), ENTRY, lat.top), r.value.facts)
    ensures r.Ok? && Lawful(lat.lattice) ==>
      forall l :: Holds(r.value.facts, l) && l !in visited ==> At(r.value.facts, l) == lat.lattice.bottom
    ensures r.Ok? && Lawful(lat.lattice) && Transitive(lat.lattice) && corrected ==>
      forall l :: l in visited ==> Settled(lat.lattice, a, g, r.value.facts, l, pcFuel)
  {
    visited := {};
    var fb := new FactBase(g, lat.lattice.bottom);
    var entry := GetMut(fb.facts, ENTRY);
    if entry.None? {
      return Panic(Unwrap), visited;
    }
    fb.Store(entry.value, lat.top);
    ghost var start := fb.facts;
    var ws := {ENTRY};
    var pc := ENTRY;
    var onPath := false;
    var budget := fuel;
    while onPath || ws != {}
      invariant EngineInvariant(lat.lattice, a, g, start, fb.facts, ws, pc, onPath, visited, pcFuel, corrected)
      invariant start == Put(BottomFacts(g, lat.lattice.bottom), ENTRY, lat.top)
      decreases budget
    {
      if budget == 0 {
        return OutOfFuel, visited;
      }
      budget := budget - 1;
      if !onPath {
        pc :| pc in ws;
      }
      ghost var before := fb.facts;
      var round := ProcessPc(fb, lat.lattice, a, g, ws, pc, pcFuel, corrected);
      if !round.Ok? {
        return Fail(round), visited;
      }
      StepKeepsInvariant(lat.lattice, a, g, start, before, ws, pc, onPath, visited, pcFuel, corrected);
      visited := visited + {pc};
      ws, pc, onPath := round.value.0, round.value.1, round.value.2;
    }
    r := Ok(fb);
  }

  /** `forward_analyze` as written: a jump target whose fact changed is
      not requeued when it is the current pc, and `next_pc` is computed
      for every instruction. */
  method ForwardAnalyze<I, F(!new)>(lat: PcLattice<F>, a: Analysis<I, F>, g: Graph<I>, fuel: nat, pcFuel: nat)
    returns (r: Outcome<FactBase<F>>, ghost visited: set<Label>)
    ensures |g.subGraphs| == 0 || |g.subGraphs[0].nodes| == 0 ==> r == Panic(Unwrap)
    ensures r.Ok? ==> Shaped(r.value.facts, g) && ENTRY in visited
    ensures r.Ok? && Lawful(lat.lattice) ==>
      Grows(lat.lattice, Put(BottomFacts(g, lat.lattice.bottom), ENTRY, lat.top), r.value.facts)
    ensures r.Ok? && Lawful(lat.lattice) ==>
      forall l :: Holds(r.value.facts, l) && l !in visited ==> At(r.value.facts, l) == lat.lattice.bottom
  {
    r, visited := Drive(lat, a, g, fuel, pcFuel, false);
  }

  /** `forward_analyze` with every changed jump target requeued and
      `next_pc` computed only for instructions that fall through: a run
      that finishes has settled every label it visited. */
  method ForwardAnalyzeCorrected<I, F(!new)>(lat: PcLattice<F>, a: Analysis<I, F>, g: Graph<I>, fuel: nat, pcFuel: nat)
    returns (r: Outcome<FactBase<F>>, ghost visited: set<Label>)
    ensures |g.subGraphs| == 0 || |g.subGraphs[0].nodes| == 0 ==> r == Panic(Unwrap)
    ensures r.Ok? ==> Shaped(r.value.facts, g) && ENTRY in visited
    ensures r.Ok? && Lawful(lat.lattice) ==>
      Grows(lat.lattice, Put(BottomFacts(g, lat.lattice.bottom), ENTRY, lat.top), r.value.facts)
    ensures r.Ok? && Lawful(lat.lattice) ==>
      forall l :: Holds(r.value.facts, l) && l !in visited ==> At(r.value.facts, l) == lat.lattice.bottom
    ensures r.Ok? && Lawful(lat.lattice) && Transitive(lat.lattice) ==>
      forall l :: l in visited ==> Settled(lat.lattice, a, g, r.value.facts, l, pcFuel)
  {
    r, visited := Drive(lat, a, g, fuel, pcFuel, true);
  }

  /** A lawful, transitive lattice on numbers: joining keeps the larger. */
  function MaxLattice(): (lat: Lattice<nat>)
    ensures lat.bottom == 0
  {
    Lattice(0, (a: nat, b: nat) => if b > a then Ok(Joined(b, true)) else Ok(Joined(a, false)))
  }

  lemma MaxLatticeLawful()
    ensures Lawful(MaxLattice()) && Transitive(MaxLattice()) && Total(MaxLattice())
  {
  }

  /** Instruction 0 jumps to itself; instruction 1 halts. */
  function SelfJumpProgram(): Graph<int> {
    NewGraph([0, 1])
  }

  /** Each instruction hands on its incoming number plus one, up to 2. */
  function Counting(): Analysis<int, nat> {
    var step: (Graph<int>, Label, int, nat) -> Rewrite<int, nat> := (g, l, i, f) => Fact(if f < 2 then f + 1 else 2);
    Analysis(i => if i == 0 then Goto([ENTRY]) else Halt(), step)
  }

  /** As written, the first round at the self-jumping entry raises its own
      fact from 0 to 1 but does not requeue it: the working set is empty and
      the path ends, so the run stops with the entry unsettled (its analysis
      at 1 would now send 2). With requeueing the entry waits again. */
  lemma SelfJumpLeftUnsettled()
    ensures Put(BottomFacts(SelfJumpProgram(), 0), ENTRY, 0) == [[0, 0]]
    ensures Step(MaxLattice(), Counting(), SelfJumpProgram(), [[0, 0]], {ENTRY}, ENTRY, 1, false) ==
            Ok(Visit([[1, 0]], {}, ENTRY, false))
    ensures !Settled(MaxLattice(), Counting(), SelfJumpProgram(), [[1, 0]], ENTRY, 1)
    ensures Step(MaxLattice(), Counting(), SelfJumpProgram(), [[0, 0]], {ENTRY}, ENTRY, 1, true) ==
            Ok(Visit([[1, 0]], {ENTRY}, ENTRY, false))
  {
    var g := SelfJumpProgram();
    var lat, a := MaxLattice(), Counting();
    assert |g.subGraphs| == 1 && |g.subGraphs[0].nodes| == 2;
    var b := BottomFacts(g, 0);
    assert |b| == 1 && |b[0]| == 2 && b[0][0] == 0 && b[0][1] == 0;
    assert b[0] == [0, 0];
    var p := Put(b, ENTRY, 0);
    assert |p| == 1 && p[0] == [0, 0];
    var q := Put([[0, 0]], ENTRY, 1);
    assert |q| == 1 && q[0] == [1, 0];
    assert q == [[1, 0]];
    assert AtInstruction(g, ENTRY) && AtInstruction(g, Label(0, 1));
    assert NextPcFrom(g, ENTRY, 1) == Ok(Label(0, 1));
    assert GetInstruction(g, ENTRY) == Ok(0);
    assert GetDisjoint([[0, 0]], Label(0, 1), ENTRY) == Ok(Some((Label(0, 1), 0)));
    assert a.analyze(g, ENTRY, 0, 0) == Fact(1);
    assert FallThrough(lat, [[0, 0]], false, Label(0, 1), ENTRY, 1) == Ok(([[0, 0]], ENTRY, true));
    assert lat.join(0, 1) == Ok(Joined(1, true));
    assert JoinAt(lat, [[0, 0]], ENTRY, 1) == Ok((q, true));
    assert GetMut([[0, 0]], ENTRY) == Some(ENTRY);
    assert JumpJoin(lat, [[0, 0]], ENTRY, ENTRY, Rewrite<int, nat>.Fact(1)) == Ok(([[1, 0]], true));
    assert [ENTRY][1..] == [];
    assert Jumps(lat, [[0, 0]], {}, ENTRY, [ENTRY], Rewrite<int, nat>.Fact(1), false) == Ok(([[1, 0]], {}));
    assert Jumps(lat, [[1, 0]], {ENTRY}, ENTRY, [], Rewrite<int, nat>.Fact(1), true) == Ok(([[1, 0]], {ENTRY}));
    var none: set<Label> := {};
    assert none + {ENTRY} == {ENTRY};
    assert Jumps(lat, [[0, 0]], {}, ENTRY, [ENTRY], Rewrite<int, nat>.Fact(1), true) == Ok(([[1, 0]], {ENTRY}));
    assert {ENTRY} - {ENTRY} == {};
    assert a.successorsOf(0) == Goto([ENTRY]);
    assert a.analyze(g, ENTRY, 0, 1) == Fact(2);
    assert !Absorbs(lat, 1, 2);
  }

  /** As written, a round at the last instruction of a region panics on
      `get_node` inside `next_pc`, whatever the instruction is: even a
      `halt` that never falls through. */
  lemma LastInstructionPanics<I, F>(lat: Lattice<F>, a: Analysis<I, F>, g: Graph<I>, facts: seq<seq<F>>, ws: set<Label>,
                                    pc: Label, pcFuel: nat)
    requires WellNumbered(g) && pcFuel > 0 && AtInstruction(g, pc)
    requires pc.index as int + 1 == |g.subGraphs[pc.subGraph].nodes| < 0x1_0000_0000
    ensures Step(lat, a, g, facts, ws, pc, pcFuel, false) == Panic(IndexOutOfRange)
  {
    NextPcWellNumbered(g, pc, pcFuel);
    assert GetInstruction(g, pc).Ok?;
  }

  /** Corrected, a round at an instruction that does not fall through never
      consults `next_pc`: it is the same with no `next_pc` budget at all. */
  lemma HaltNeedsNoNextPc<I, F>(lat: Lattice<F>, a: Analysis<I, F>, g: Graph<I>, facts: seq<seq<F>>, ws: set<Label>,
                                pc: Label, pcFuel: nat)
    requires GetInstruction(g, pc).Ok? && !a.successorsOf(GetInstruction(g, pc).value).fallthrough
    ensures Step(lat, a, g, facts, ws, pc, pcFuel, true) == Step(lat, a, g, facts, ws, pc, 0, true)
  {
  }

  /** In the program above, the halting instruction 1 ends the region: as
      written its round panics, corrected it passes nothing on and ends the
      path. */
  lemma HaltAtEndPanics()
    ensures Step(MaxLattice(), Counting(), SelfJumpProgram(), [[1, 0]], {Label(0, 1)}, Label(0, 1), 1, false) ==
            Panic(IndexOutOfRange)
    ensures Step(MaxLattice(), Counting(), SelfJumpProgram(), [[1, 0]], {Label(0, 1)}, Label(0, 1), 1, true) ==
            Ok(Visit([[1, 0]], {}, Label(0, 1), false))
  {
    var g := SelfJumpProgram();
    NewGraphWellNumbered([0, 1]);
    LastInstructionPanics(MaxLattice(), Counting(), g, [[1, 0]], {Label(0, 1)}, Label(0, 1), 1);
    assert GetInstruction(g, Label(0, 1)) == Ok(1);
    assert Counting().successorsOf(1) == Halt();
    assert {Label(0, 1)} - {Label(0, 1)} == {};
  }
}
