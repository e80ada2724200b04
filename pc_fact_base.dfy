/** The fact base of the per-instruction engine: one row of facts per region,
    one fact per node, addressed by label. Reads are functions of the rows;
    the two writes the engine performs through mutable references (storing
    a fact, joining into one) are methods of the `FactBase` object. A
    mutable reference is modelled by the label of the slot it points to. */
module PcFactBase {
  import opened Common
  import opened Lattices
  import opened PcLabels
  import opened PcGraph

  /** `index_two(items, first, second)`: split `items` at the larger index
      and borrow the element at `first` mutably and the one at `second`
      shared, by the positions they are found at. It works exactly when the
      two indexes differ and both are in range; otherwise one of the slice
      accesses (or the split itself) is out of range. */
  function IndexTwo<T>(items: seq<T>, first: nat, second: nat): (r: Outcome<(nat, nat)>)
    ensures r.Ok? <==> first != second && first < |items| && second < |items|
    ensures r.Ok? ==> r.value == (first, second)
    ensures !r.Ok? ==> r == Panic(IndexOutOfRange)
  {
    var split := if first < second then second else first;
    if split > |items| then Panic(IndexOutOfRange)
    else if first < second then
      // `first_slice[first]` and `second_slice[0]`
      if split < |items| then Ok((first, split)) else Panic(IndexOutOfRange)
    else
      // `second_slice[0]` and `first_slice[second]`
      if split < |items| && second < split then Ok((split, second)) else Panic(IndexOutOfRange)
  }

  /** There is a fact for `l`: its region has a row and the row a slot. */
  predicate Holds<F>(facts: seq<seq<F>>, l: Label) {
    (l.subGraph as int) < |facts| && (l.index as int) < |facts[l.subGraph]|
  }

  /** The fact stored for `l`. */
  function At<F>(facts: seq<seq<F>>, l: Label): F
    requires Holds(facts, l)
  {
    facts[l.subGraph][l.index]
  }

  /** The rows have one row per region and one slot per node. */
  predicate Shaped<I, F>(facts: seq<seq<F>>, g: Graph<I>) {
    |facts| == |g.subGraphs| &&
    forall s :: 0 <= s < |facts| ==> |facts[s]| == |g.subGraphs[s].nodes|
  }

  /** Two fact bases with the same rows and row lengths. */
  predicate SameShape<F>(f1: seq<seq<F>>, f2: seq<seq<F>>) {
    |f1| == |f2| && forall s :: 0 <= s < |f1| ==> |f1[s]| == |f2[s]|
  }

  /** The rows with `f` stored for `l` and every other slot as it was. */
  function Put<F>(facts: seq<seq<F>>, l: Label, f: F): (r: seq<seq<F>>)
    requires Holds(facts, l)
    ensures SameShape(facts, r) && At(r, l) == f
    ensures forall m :: Holds(facts, m) && m != l ==> At(r, m) == At(facts, m)
  {
    facts[l.subGraph := facts[l.subGraph][l.index := f]]
  }

  /** `FactBase::new`: one `bottom` per node of every region. */
  function BottomFacts<I, F>(g: Graph<I>, bottom: F): (r: seq<seq<F>>)
    ensures Shaped(r, g)
    ensures forall l :: Holds(r, l) ==> At(r, l) == bottom
  {
    seq(|g.subGraphs|, s requires 0 <= s < |g.subGraphs| => seq(|g.subGraphs[s].nodes|, _ => bottom))
  }

  /** `FactBase::get`: the fact for `l`, if its region and slot exist. */
  function Get<F>(facts: seq<seq<F>>, l: Label): (r: Option<F>)
    ensures r.Some? <==> Holds(facts, l)
    ensures r.Some? ==> r.value == At(facts, l)
  {
    if (l.subGraph as int) < |facts| && (l.index as int) < |facts[l.subGraph]| then Some(facts[l.subGraph][l.index])
    else None
  }

  /** `FactBase::get_mut`: a mutable reference to the slot of `l`, if it
      exists. */
  function GetMut<F>(facts: seq<seq<F>>, l: Label): (r: Option<Label>)
    ensures r.Some? <==> Holds(facts, l)
    ensures r.Some? ==> r.value == l
  {
    if (l.subGraph as int) < |facts| && (l.index as int) < |facts[l.subGraph]| then Some(l) else None
  }

  /** `FactBase::get_disjoint(first, second)`: a mutable reference to the
      slot of `first` together with the fact of `second`. Either label
      without a slot gives `None`; the same label twice panics inside
      `index_two`. */
  function GetDisjoint<F>(facts: seq<seq<F>>, first: Label, second: Label): (r: Outcome<Option<(Label, F)>>)
    ensures r == Ok(None) <==> !Holds(facts, first) || !Holds(facts, second)
    ensures r.Panic? <==> Holds(facts, first) && first == second
    ensures !r.Ok? ==> r == Panic(IndexOutOfRange)
    ensures r.Ok? && r.value.Some? ==> first != second && r.value.value == (first, At(facts, second))
  {
    if (first.subGraph as int) >= |facts| || (second.subGraph as int) >= |facts| then Ok(None)
    else if first.subGraph == second.subGraph then
      var row := facts[first.subGraph];
      if (first.index as int) >= |row| || (second.index as int) >= |row| then Ok(None)
      else
        var two := IndexTwo(row, first.index as nat, second.index as nat);
        if !two.Ok? then Fail(two)
        else Ok(Some((first, row[two.value.1])))
    else
      // the regions differ, so this `index_two` always succeeds
      var two := IndexTwo(facts, first.subGraph as nat, second.subGraph as nat);
      if !two.Ok? then Panic(IndexOutOfRange)
      else
        var (left, right) := (facts[two.value.0], facts[two.value.1]);
        if (first.index as int) >= |left| || (second.index as int) >= |right| then Ok(None)
        else Ok(Some((first, right[second.index])))
  }

  /** Joining `other` into the fact of `slot`: the new rows and the flag
      the join returns. A panicking join panics. */
  function JoinAt<F>(lat: Lattice<F>, facts: seq<seq<F>>, slot: Label, other: F): (r: Outcome<(seq<seq<F>>, bool)>)
    requires Holds(facts, slot)
    ensures r.Ok? <==> lat.join(At(facts, slot), other).Ok?
    ensures r.Ok? ==> r.value == (Put(facts, slot, lat.join(At(facts, slot), other).value.fact),
                                  lat.join(At(facts, slot), other).value.changed)
  {
    var j := lat.join(At(facts, slot), other);
    if j.Ok? then Ok((Put(facts, slot, j.value.fact), j.value.changed)) else Fail(j)
  }

  /** A join through a lawful lattice leaves a fact that holds what was
      joined in; it changes the slot exactly when it reports a change, and
      every fact that held something before still holds it. */
  lemma JoinAtLawful<F(!new)>(lat: Lattice<F>, facts: seq<seq<F>>, slot: Label, other: F)
    requires Lawful(lat) && Holds(facts, slot) && JoinAt(lat, facts, slot, other).Ok?
    ensures var (facts', changed) := JoinAt(lat, facts, slot, other).value;
      Absorbs(lat, At(facts', slot), other) &&
      (changed <==> At(facts', slot) != At(facts, slot)) &&
      Grows(lat, facts, facts')
  {
    var facts' := JoinAt(lat, facts, slot, other).value.0;
    forall l, x | Holds(facts, l) && Absorbs(lat, At(facts, l), x)
      ensures Absorbs(lat, At(facts', l), x)
    {
    }
  }

  /** Every fact of `f2` holds whatever the fact of the same slot in `f1`
      held. */
  ghost predicate Grows<F(!new)>(lat: Lattice<F>, f1: seq<seq<F>>, f2: seq<seq<F>>) {
    SameShape(f1, f2) &&
    forall l, x :: Holds(f1, l) && Absorbs(lat, At(f1, l), x) ==> Absorbs(lat, At(f2, l), x)
  }

  /** The `FactBase` object: its rows are updated in place. */
  class FactBase<F> {
    var facts: seq<seq<F>>

    /** `FactBase::new(graph)`: `bottom` everywhere, shaped like `g`. */
    constructor <I>(g: Graph<I>, bottom: F)
      ensures facts == BottomFacts(g, bottom)
    {
      facts := BottomFacts(g, bottom);
    }

    /** `*slot = fact` through the reference `get_mut` returned. */
    method Store(slot: Label, f: F)
      requires Holds(facts, slot)
      modifies this
      ensures facts == Put(old(facts), slot, f)
    {
      facts := facts[slot.subGraph := facts[slot.subGraph][slot.index := f]];
    }

    /** `slot.join(&other, label)` through a mutable reference. */
    method Join(lat: Lattice<F>, slot: Label, other: F) returns (r: Outcome<bool>)
      requires Holds(facts, slot)
      modifies this
      ensures var j := JoinAt(lat, old(facts), slot, other);
        (r.Ok? <==> j.Ok?) && (j.Ok? ==> r.value == j.value.1 && facts == j.value.0) &&
        (!j.Ok? ==> r == Fail(j) && facts == old(facts))
    {
      var j := lat.join(At(facts, slot), other);
      if !j.Ok? {
        return Fail(j);
      }
      Store(slot, j.value.fact);
      r := Ok(j.value.changed);
    }
  }

  /** Reading a stored fact back gives it; no other slot changes. */
  lemma GetAfterStore<F>(facts: seq<seq<F>>, slot: Label, f: F, l: Label)
    requires Holds(facts, slot)
    ensures Get(Put(facts, slot, f), l) == if l == slot then Some(f) else Get(facts, l)
  {
  }

  /** `get`, `get_mut` and `get_disjoint` agree on which slots exist, and
      `get_disjoint` of two different labels reads the same fact `get`
      does. */
  lemma AccessorsAgree<F>(facts: seq<seq<F>>, first: Label, second: Label)
    requires first != second
    ensures GetDisjoint(facts, first, second).Ok?
    ensures GetDisjoint(facts, first, second).value.Some? <==> GetMut(facts, first).Some? && Get(facts, second).Some?
    ensures GetDisjoint(facts, first, second).value.Some? ==>
              GetDisjoint(facts, first, second).value.value == (GetMut(facts, first).value, Get(facts, second).value)
  {
  }
}
