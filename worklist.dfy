/** The step both block engines take after analysing a block: the output
    fact of each neighbour is joined into the fact base, a missing fact
    starting at `bottom`, and a neighbour whose fact changed is queued
    unless it is already pending. */
module Worklist {
  import opened Common
  import opened Lattices

  /** The labels of a sequence, as a set. */
  function Elems<K(!new)>(s: seq<K>): (r: set<K>)
    ensures forall k :: k in r <==> k in s
  {
    set k | k in s
  }

  /** The `for` loop over the successors (forward) or predecessors (backward)
      of the block just analysed. `out` is that block's output fact base;
      indexing it at a neighbour it lacks panics. */
  method JoinNeighbours<K(!new), F(!new)>(lat: Lattice<F>, out: map<K, F>, ns: seq<K>, facts: map<K, F>, toVisit: seq<K>)
    returns (r: Outcome<(map<K, F>, seq<K>)>)
    requires NoDup(toVisit)
    ensures r.Ok? ==> forall n :: n in ns ==> n in out
    ensures (forall n :: n in ns ==> n in out) && Total(lat) ==> r.Ok?
    ensures Total(lat) ==> r.Ok? || r == Panic(MissingKey)
    ensures r.Ok? ==> r.value.0.Keys == facts.Keys + Elems(ns)
    ensures r.Ok? ==> forall k :: k in facts && k !in ns ==> r.value.0[k] == facts[k]
    ensures r.Ok? ==> |toVisit| <= |r.value.1| && r.value.1[..|toVisit|] == toVisit
    ensures r.Ok? ==> forall i :: |toVisit| <= i < |r.value.1| ==> r.value.1[i] in ns
    ensures r.Ok? ==> NoDup(r.value.1)
    ensures r.Ok? && Lawful(lat) ==> Absorbed(lat, r.value.0, out, Elems(ns))
    ensures r.Ok? && Lawful(lat) ==>
              forall n :: n in ns && FactOr(r.value.0, n, lat.bottom) != FactOr(facts, n, lat.bottom) ==> n in r.value.1
    ensures r.Ok? && Lawful(lat) ==>
              forall o, ms :: Absorbed(lat, facts, o, ms) ==> Absorbed(lat, r.value.0, o, ms)
  {
    var fb, tv := facts, toVisit;
    var k := 0;
    assert tv[..|toVisit|] == toVisit;
    while k < |ns|
      invariant Joining(lat, out, ns, facts, toVisit, k, fb, tv)
    {
      var step := JoinOne(lat, out, ns, facts, toVisit, k, fb, tv);
      if !step.Ok? {
        return step;
      }
      fb, tv := step.value.0, step.value.1;
      k := k + 1;
    }
    assert ns[..k] == ns;
    r := Ok((fb, tv));
  }

  lemma NoDupAppend<K>(s: seq<K>, x: K)
    requires NoDup(s) && x !in s
    ensures NoDup(s + [x])
  {
  }

  /** What holds after the first `k` neighbours have been joined in. */
  ghost predicate Joining<K(!new), F(!new)>(lat: Lattice<F>, out: map<K, F>, ns: seq<K>, facts: map<K, F>, toVisit: seq<K>,
                                            k: int, fb: map<K, F>, tv: seq<K>) {
    0 <= k <= |ns| &&
    (forall n :: n in ns[..k] ==> n in out) &&
    fb.Keys == facts.Keys + Elems(ns[..k]) &&
    (forall x :: x in facts && x !in ns[..k] ==> fb[x] == facts[x]) &&
    |toVisit| <= |tv| && tv[..|toVisit|] == toVisit &&
    (forall i :: |toVisit| <= i < |tv| ==> tv[i] in ns[..k]) &&
    NoDup(tv) &&
    (Lawful(lat) ==> Absorbed(lat, fb, out, Elems(ns[..k]))) &&
    (Lawful(lat) ==> forall n :: n in ns[..k] && FactOr(fb, n, lat.bottom) != FactOr(facts, n, lat.bottom) ==> n in tv) &&
    (Lawful(lat) ==> forall o, ms :: Absorbed(lat, facts, o, ms) ==> Absorbed(lat, fb, o, ms))
  }

  /** One turn of that loop: join the `k`-th neighbour's output fact into its
      fact, queueing the neighbour when the join reports a change. */
  method JoinOne<K(!new), F(!new)>(lat: Lattice<F>, out: map<K, F>, ns: seq<K>, facts: map<K, F>, toVisit: seq<K>,
                                   k: int, fb: map<K, F>, tv: seq<K>)
    returns (r: Outcome<(map<K, F>, seq<K>)>)
    requires Joining(lat, out, ns, facts, toVisit, k, fb, tv) && k < |ns|
    ensures r.Ok? ==> Joining(lat, out, ns, facts, toVisit, k + 1, r.value.0, r.value.1)
    ensures ns[k] in out && Total(lat) ==> r.Ok?
    ensures Total(lat) ==> r.Ok? || r == Panic(MissingKey)
  {
    var n := ns[k];
    var current := FactOr(fb, n, lat.bottom);
    if n !in out {
      return Panic(MissingKey);
    }
    var j := lat.join(current, out[n]);
    if !j.Ok? {
      return Fail(j);
    }
    var fb' := fb[n := j.value.fact];
    var tv' := if j.value.changed && n !in tv then tv + [n] else tv;
    JoinOneKeeps(lat, out, ns, facts, toVisit, k, fb, tv);
    r := Ok((fb', tv'));
  }

  /** Joining the `k`-th neighbour takes `Joining` from `k` to `k + 1`. */
  lemma JoinOneKeeps<K(!new), F(!new)>(lat: Lattice<F>, out: map<K, F>, ns: seq<K>, facts: map<K, F>, toVisit: seq<K>,
                                       k: int, fb: map<K, F>, tv: seq<K>)
    requires Joining(lat, out, ns, facts, toVisit, k, fb, tv) && k < |ns|
    requires ns[k] in out && lat.join(FactOr(fb, ns[k], lat.bottom), out[ns[k]]).Ok?
    ensures var n := ns[k];
      var j := lat.join(FactOr(fb, n, lat.bottom), out[n]).value;
      Joining(lat, out, ns, facts, toVisit, k + 1, fb[n := j.fact], if j.changed && n !in tv then tv + [n] else tv)
  {
    var n := ns[k];
    var j := lat.join(FactOr(fb, n, lat.bottom), out[n]).value;
    var fb' := fb[n := j.fact];
    var tv' := if j.changed && n !in tv then tv + [n] else tv;
    assert ns[..k + 1] == ns[..k] + [n];
    assert Elems(ns[..k + 1]) == Elems(ns[..k]) + {n};
    assert tv'[..|toVisit|] == toVisit by {
      assert tv'[..|tv|] == tv;
    }
    if j.changed && n !in tv {
      NoDupAppend(tv, n);
    }
    if Lawful(lat) {
      JoinOneLawful(lat, out, ns[..k], facts, fb, tv, n, tv');
    }
  }

  /** The lattice-law half of `JoinOne`: absorption survives the join, the
      joined neighbour absorbs its output, and a changed fact is queued. */
  lemma JoinOneLawful<K(!new), F(!new)>(lat: Lattice<F>, out: map<K, F>, done: seq<K>, facts: map<K, F>,
                                        fb: map<K, F>, tv: seq<K>, n: K, tv': seq<K>)
    requires Lawful(lat)
    requires n in out && lat.join(FactOr(fb, n, lat.bottom), out[n]).Ok?
    requires Absorbed(lat, fb, out, Elems(done))
    requires forall m :: m in done && FactOr(fb, m, lat.bottom) != FactOr(facts, m, lat.bottom) ==> m in tv
    requires forall o, ms :: Absorbed(lat, facts, o, ms) ==> Absorbed(lat, fb, o, ms)
    requires n !in done ==> FactOr(fb, n, lat.bottom) == FactOr(facts, n, lat.bottom)
    requires forall m :: m in tv ==> m in tv'
    requires lat.join(FactOr(fb, n, lat.bottom), out[n]).value.changed ==> n in tv'
    ensures var fb' := fb[n := lat.join(FactOr(fb, n, lat.bottom), out[n]).value.fact];
      Absorbed(lat, fb', out, Elems(done + [n])) &&
      (forall m :: m in done + [n] && FactOr(fb', m, lat.bottom) != FactOr(facts, m, lat.bottom) ==> m in tv') &&
      (forall o, ms :: Absorbed(lat, facts, o, ms) ==> Absorbed(lat, fb', o, ms))
  {
    var j := lat.join(FactOr(fb, n, lat.bottom), out[n]).value;
    var fb' := fb[n := j.fact];
    forall o, ms | Absorbed(lat, facts, o, ms)
      ensures Absorbed(lat, fb', o, ms)
    {
      JoinKeepsAbsorbed(lat, fb, n, out[n], o, ms);
    }
    JoinKeepsAbsorbed(lat, fb, n, out[n], out, Elems(done));
    assert Absorbs(lat, fb'[n], out[n]);
    if !j.changed {
      UnchangedJoin(lat, fb, n, out[n]);
    }
    forall m | m in done + [n] && FactOr(fb', m, lat.bottom) != FactOr(facts, m, lat.bottom)
      ensures m in tv'
    {
      if m != n {
        assert FactOr(fb', m, lat.bottom) == FactOr(fb, m, lat.bottom);
      }
    }
  }
}
