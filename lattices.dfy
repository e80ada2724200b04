/** The lattice contract every fact type meets: a `bottom` fact for labels
    with no information, and a `join` that merges another fact into the
    current one and says whether the current one changed. */
module Lattices {
  import opened Common

  /** The fact after a join and the flag `join` returns. */
  datatype Joined<F> = Joined(fact: F, changed: bool)

  /** `bottom()` and `join`. The source's join updates `self` in place; here it
      returns the updated fact. Its label argument serves debugging only and is
      dropped. A client join may panic, so it yields an `Outcome`. */
  datatype Lattice<!F> = Lattice(bottom: F, join: (F, F) -> Outcome<Joined<F>>)

  /** The fact stored under `k`, or `d` when there is none. */
  function FactOr<K, F>(facts: map<K, F>, k: K, d: F): (r: F)
    ensures k in facts ==> r == facts[k]
    ensures k !in facts ==> r == d
  {
    if k in facts then facts[k] else d
  }

  /** Joining `b` into `a` leaves `a` as it is and reports no change. */
  ghost predicate Absorbs<F>(lat: Lattice<F>, a: F, b: F) {
    lat.join(a, b) == Ok(Joined(a, false))
  }

  /** `join` returns true exactly when the current fact was changed. */
  ghost predicate ReportsChangesExactly<F(!new)>(lat: Lattice<F>) {
    forall a, b :: lat.join(a, b).Ok? ==> (lat.join(a, b).value.changed <==> lat.join(a, b).value.fact != a)
  }

  /** Joining again what was just joined in changes nothing. */
  ghost predicate AbsorbsWhatItJoined<F(!new)>(lat: Lattice<F>) {
    forall a, b :: lat.join(a, b).Ok? ==> Absorbs(lat, lat.join(a, b).value.fact, b)
  }

  /** A fact that already holds `b` still holds it after any further join. */
  ghost predicate KeepsAbsorbing<F(!new)>(lat: Lattice<F>) {
    forall a, b, c :: Absorbs(lat, a, b) && lat.join(a, c).Ok? ==> Absorbs(lat, lat.join(a, c).value.fact, b)
  }

  /** The laws the worklist engines rely on to reach a fixed point. */
  ghost predicate Lawful<F(!new)>(lat: Lattice<F>) {
    ReportsChangesExactly(lat) && AbsorbsWhatItJoined(lat) && KeepsAbsorbing(lat)
  }

  /** A fact that holds one that holds `c` holds `c` too. */
  ghost predicate Transitive<F(!new)>(lat: Lattice<F>) {
    forall a, b, c :: Absorbs(lat, a, b) && Absorbs(lat, b, c) ==> Absorbs(lat, a, c)
  }

  /** `join` never panics. */
  ghost predicate Total<F(!new)>(lat: Lattice<F>) {
    forall a, b :: lat.join(a, b).Ok?
  }

  /** The top-most fact: joining anything into it changes nothing. */
  ghost predicate IsTop<F(!new)>(lat: Lattice<F>, t: F) {
    forall b :: Absorbs(lat, t, b)
  }

  /** Each label of `ns` has a fact that already holds what `out` sends it. */
  ghost predicate Absorbed<K, F>(lat: Lattice<F>, facts: map<K, F>, out: map<K, F>, ns: set<K>) {
    forall n :: n in ns ==> n in out && n in facts && Absorbs(lat, facts[n], out[n])
  }

  /** Joining into one slot, missing slots starting at `bottom`, keeps every
      absorption that held before. */
  lemma JoinKeepsAbsorbed<K, F(!new)>(lat: Lattice<F>, facts: map<K, F>, k: K, b: F, out: map<K, F>, ns: set<K>)
    requires KeepsAbsorbing(lat)
    requires Absorbed(lat, facts, out, ns)
    requires lat.join(FactOr(facts, k, lat.bottom), b).Ok?
    ensures Absorbed(lat, facts[k := lat.join(FactOr(facts, k, lat.bottom), b).value.fact], out, ns)
  {
    var d := lat.join(FactOr(facts, k, lat.bottom), b).value.fact;
    forall n | n in ns
      ensures n in out && n in facts[k := d] && Absorbs(lat, facts[k := d][n], out[n])
    {
      if n == k {
        assert Absorbs(lat, facts[k], out[k]);
      }
    }
  }

  /** A join that reports no change leaves the fact, present or not, as it was. */
  lemma UnchangedJoin<K, F(!new)>(lat: Lattice<F>, facts: map<K, F>, k: K, b: F)
    requires ReportsChangesExactly(lat)
    requires lat.join(FactOr(facts, k, lat.bottom), b).Ok? && !lat.join(FactOr(facts, k, lat.bottom), b).value.changed
    ensures FactOr(facts[k := lat.join(FactOr(facts, k, lat.bottom), b).value.fact], k, lat.bottom) == FactOr(facts, k, lat.bottom)
  {
  }
}
