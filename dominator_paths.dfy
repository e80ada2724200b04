/** The dominator fact of both engines: `None` (no path seen yet) or the
    path of labels that dominate the current one. Joining two paths keeps
    their common prefix. The join is written twice: as the source has it,
    and with its two defects corrected; the lattices use the corrected one. */
module DominatorPaths {
  import opened Common
  import opened Lattices

  /** `DominatorFact { dominates }`. */
  type Path<L> = Option<seq<L>>

  /** `p` is a prefix of `s`. */
  predicate IsPrefix<L(==)>(p: seq<L>, s: seq<L>) {
    |p| <= |s| && s[..|p|] == p
  }

  /** The `for index in 0..self.len()` loop from `i` on, as written: it
      indexes `o` without checking its length. */
  function TruncateAsWritten<L(==)>(s: seq<L>, o: seq<L>, i: nat): (r: Outcome<Joined<seq<L>>>)
    requires i <= |s|
    ensures r.Panic? ==> r.why == IndexOutOfRange
    ensures r.Ok? ==> IsPrefix(r.value.fact, s) && |r.value.fact| >= i
    ensures r.Ok? ==> (r.value.changed <==> |r.value.fact| < |s|)
    decreases |s| - i
  {
    if i == |s| then Ok(Joined(s, false))
    else if i >= |o| then Panic(IndexOutOfRange)
    else if s[i] != o[i] then Ok(Joined(s[..i], true))
    else TruncateAsWritten(s, o, i + 1)
  }

  /** The loop itself: truncate `s` in place at the first index where it
      differs from `o`. */
  method Truncate<L(==)>(s: seq<L>, o: seq<L>) returns (r: Outcome<Joined<seq<L>>>)
    ensures r == TruncateAsWritten(s, o, 0)
  {
    var path := s;
    for index := 0 to |path|
      invariant path == s
      invariant TruncateAsWritten(s, o, 0) == TruncateAsWritten(s, o, index)
    {
      if index >= |o| {
        return Panic(IndexOutOfRange);
      }
      if path[index] != o[index] {
        path := path[..index];
        return Ok(Joined(path, true));
      }
    }
    r := Ok(Joined(path, false));
  }

  /** `DominatorFact::join` as written. */
  function JoinAsWritten<L(==)>(a: Path<L>, b: Path<L>): (r: Outcome<Joined<Path<L>>>)
    ensures a.None? ==> r == Ok(Joined(b, true))
    ensures r.Panic? ==> r.why == IndexOutOfRange && a.Some? && b.Some?
    ensures r.Ok? && a.Some? ==> r.value.fact.Some? && IsPrefix(r.value.fact.value, a.value)
    ensures r.Ok? && a.Some? ==> (r.value.changed <==> r.value.fact != a)
  {
    if a.None? then Ok(Joined(b, true))
    else if b.Some? then
      var t := TruncateAsWritten(a.value, b.value, 0);
      if t.Ok? then
        assert a.value[..|a.value|] == a.value;
        Ok(Joined(Some(t.value.fact), t.value.changed))
      else Fail(t)
    else Ok(Joined(a, false))
  }

  /** The path lattice with the join as written. */
  function AsWrittenLattice<L(==, !new)>(): (lat: Lattice<Path<L>>)
    ensures lat.bottom == None
    ensures !ReportsChangesExactly(lat)
  {
    var lat := Lattice(None, JoinAsWritten);
    assert lat.join(None, None) == Ok(Joined(None, true));
    lat
  }

  /** Joining `None` into `None` reports a change although nothing changed. */
  lemma AsWrittenReportsPhantomChange<L(!new)>()
    ensures JoinAsWritten<L>(None, None) == Ok(Joined(None, true))
    ensures !ReportsChangesExactly(AsWrittenLattice<L>())
  {
    assert AsWrittenLattice<L>().join(None, None) == Ok(Joined(None, true));
  }

  /** The as-written truncation from `i` panics exactly when `o` runs out
      before `s` does while agreeing with it. */
  lemma {:induction false} TruncateAsWrittenPanics<L>(s: seq<L>, o: seq<L>, i: nat)
    requires i <= |s| && i <= |o| && s[..i] == o[..i]
    ensures TruncateAsWritten(s, o, i).Panic? <==> |o| < |s| && IsPrefix(o, s)
    ensures !TruncateAsWritten(s, o, i).Panic? ==> TruncateAsWritten(s, o, i).Ok?
    decreases |s| - i
  {
    if i == |s| {
    } else if i >= |o| {
      assert o[..|o|] == o;
    } else if s[i] != o[i] {
      assert !IsPrefix(o, s) by {
        if |o| < |s| {
          assert s[..|o|][i] == s[i];
        }
      }
    } else {
      assert s[..i + 1] == s[..i] + [s[i]] && o[..i + 1] == o[..i] + [o[i]];
      TruncateAsWrittenPanics(s, o, i + 1);
    }
  }

  /** The as-written join panics exactly when the other path is a strict
      prefix of the current one. */
  lemma AsWrittenPanicsOnShorterPrefix<L>(s: seq<L>, o: seq<L>)
    ensures JoinAsWritten(Some(s), Some(o)).Panic? <==> |o| < |s| && IsPrefix(o, s)
  {
    TruncateAsWrittenPanics(s, o, 0);
  }

  /** The longest common prefix of `s` and `o`. */
  function CommonPrefix<L(==)>(s: seq<L>, o: seq<L>): (r: seq<L>)
    ensures IsPrefix(r, s) && IsPrefix(r, o)
    ensures |r| == |s| || |r| == |o| || s[|r|] != o[|r|]
    decreases |s|
  {
    if s == [] || o == [] || s[0] != o[0] then []
    else
      var t := CommonPrefix(s[1..], o[1..]);
      assert s[..|t| + 1] == [s[0]] + s[1..][..|t|];
      assert o[..|t| + 1] == [o[0]] + o[1..][..|t|];
      [s[0]] + t
  }

  /** Any common prefix is a prefix of the longest one. */
  lemma {:induction false} CommonPrefixLongest<L>(s: seq<L>, o: seq<L>, p: seq<L>)
    requires IsPrefix(p, s) && IsPrefix(p, o)
    ensures IsPrefix(p, CommonPrefix(s, o))
    decreases |s|
  {
    if p != [] {
      assert p[0] == s[0] == o[0];
      assert p[1..] == s[1..][..|p| - 1] == o[1..][..|p| - 1];
      CommonPrefixLongest(s[1..], o[1..], p[1..]);
    }
  }

  /** The join the source evidently intends: `None` joined with `None` is
      no change, and a shorter path truncates the current one to the common
      prefix instead of indexing past its end. */
  function JoinPaths<L(==, !new)>(a: Path<L>, b: Path<L>): (r: Joined<Path<L>>)
    ensures a.None? ==> r == Joined(b, b.Some?)
    ensures a.Some? && b.None? ==> r == Joined(a, false)
    ensures a.Some? && b.Some? ==> r.fact.Some? && IsPrefix(r.fact.value, a.value) && IsPrefix(r.fact.value, b.value)
    ensures a.Some? && b.Some? ==> forall p :: IsPrefix(p, a.value) && IsPrefix(p, b.value) ==> IsPrefix(p, r.fact.value)
    ensures r.changed <==> r.fact != a
  {
    if a.None? then Joined(b, b.Some?)
    else if b.None? then Joined(a, false)
    else
      var p := CommonPrefix(a.value, b.value);
      forall q | IsPrefix(q, a.value) && IsPrefix(q, b.value)
        ensures IsPrefix(q, p)
      {
        CommonPrefixLongest(a.value, b.value, q);
      }
      assert |p| == |a.value| ==> p == a.value;
      Joined(Some(p), |p| < |a.value|)
  }

  /** The corrected path lattice: `bottom` is `None`. */
  function PathLattice<L(==, !new)>(): (lat: Lattice<Path<L>>)
    ensures lat.bottom == None
  {
    Lattice(None, (a, b) => Ok(JoinPaths(a, b)))
  }

  /** Where the as-written join returns, it agrees with the corrected one,
      except for the phantom change on `None`/`None`. */
  lemma AsWrittenAgrees<L(!new)>(a: Path<L>, b: Path<L>)
    requires JoinAsWritten(a, b).Ok? && !(a.None? && b.None?)
    ensures JoinAsWritten(a, b).value == JoinPaths(a, b)
  {
    if a.Some? && b.Some? {
      AsWrittenIsCommonPrefix(a.value, b.value, 0);
    }
  }

  /** A non-panicking as-written truncation yields the common prefix. */
  lemma {:induction false} AsWrittenIsCommonPrefix<L>(s: seq<L>, o: seq<L>, i: nat)
    requires i <= |s| && i <= |o| && s[..i] == o[..i]
    requires TruncateAsWritten(s, o, i).Ok?
    ensures TruncateAsWritten(s, o, i).value.fact == CommonPrefix(s, o)
    ensures TruncateAsWritten(s, o, i).value.changed <==> |CommonPrefix(s, o)| < |s|
    decreases |s| - i
  {
    var c := CommonPrefix(s, o);
    if i == |s| {
      assert IsPrefix(s, s) && IsPrefix(s, o);
      CommonPrefixLongest(s, o, s);
    } else if s[i] != o[i] {
      assert IsPrefix(s[..i], s) && IsPrefix(s[..i], o);
      CommonPrefixLongest(s, o, s[..i]);
    } else {
      assert s[..i + 1] == s[..i] + [s[i]] && o[..i + 1] == o[..i] + [o[i]];
      AsWrittenIsCommonPrefix(s, o, i + 1);
    }
  }

  /** The corrected join never panics and meets the lattice laws. */
  lemma PathLatticeLawful<L(!new)>()
    ensures Total(PathLattice<L>())
    ensures Lawful(PathLattice<L>())
  {
    var lat := PathLattice<L>();
    forall a, b
      ensures Absorbs(lat, JoinPaths(a, b).fact, b)
    {
      if a.Some? && b.Some? {
        var p := JoinPaths(a, b).fact.value;
        assert IsPrefix(p, p);
      } else if b.Some? {
        assert IsPrefix(b.value, b.value);
      }
    }
    forall a, b, c | Absorbs(lat, a, b)
      ensures Absorbs(lat, JoinPaths(a, c).fact, b)
    {
      if b.Some? {
        assert a.Some? && IsPrefix(a.value, b.value) by {
          if a.Some? {
            assert IsPrefix(a.value, a.value);
          }
        }
        var d := JoinPaths(a, c).fact.value;
        assert IsPrefix(d, b.value);
      }
    }
  }

  /** A path holds another when it is a prefix of it, or when the other is
      `None`; prefixes of prefixes are prefixes, so holding is transitive. */
  lemma PathLatticeTransitive<L(!new)>()
    ensures Transitive(PathLattice<L>())
  {
    var lat := PathLattice<L>();
    forall a, b, c | Absorbs(lat, a, b) && Absorbs(lat, b, c)
      ensures Absorbs(lat, a, c)
    {
      if c.Some? {
        assert b.Some? && IsPrefix(b.value, c.value) by {
          if b.Some? {
            assert IsPrefix(b.value, b.value);
          }
        }
        assert a.Some? && IsPrefix(a.value, b.value) by {
          if a.Some? {
            assert IsPrefix(a.value, a.value);
          }
        }
        assert c.value[..|a.value|] == b.value[..|a.value|];
        assert IsPrefix(a.value, c.value);
      }
    }
  }

  /** `Some([])` absorbs every path, so it is the top-most fact; `None` is
      not, because joining a path into it changes it. */
  lemma PathTop<L(!new)>(l: L)
    ensures IsTop(PathLattice<L>(), Some([]))
    ensures !IsTop(PathLattice<L>(), None)
  {
    assert !Absorbs(PathLattice<L>(), None, Some([l]));
  }

  /** The fact with `l` appended to the path, an absent path counting as
      empty (`get_or_insert(vec![]).push(l)`). */
  function WithLabel<L>(p: Path<L>, l: L): (r: Path<L>)
    ensures r.Some? && |r.value| > 0 && r.value[|r.value| - 1] == l
    ensures p.Some? ==> r.value[..|r.value| - 1] == p.value
    ensures p.None? ==> r.value == [l]
  {
    Some((if p.Some? then p.value else []) + [l])
  }
}
