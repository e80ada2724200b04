/** The block-structured graph: labels, basic blocks, the graph as a map from
    label to block, and the recursive post-order traversal that seeds both
    worklist engines. */
module BlockGraph {
  import opened Common

  /** A block label, `Label(u32)`. */
  datatype Label = Label(id: u32)

  /** The two accessors a client instruction set must provide: the label an
      entry marker carries and the successors an exit jumps to. */
  datatype Language<!E, !X> = Language(labelOf: E -> Label, successorsOf: X -> seq<Label>)

  /** An entry marker, a straight-line body and an exit. */
  datatype BasicBlock<E, I, X> = BasicBlock(entry: E, code: seq<I>, exit: X)

  /** A block is labelled by its entry. */
  function BlockLabel<E, I, X>(lang: Language<E, X>, b: BasicBlock<E, I, X>): Label {
    lang.labelOf(b.entry)
  }

  /** A block's successors are its exit's successors. */
  function BlockSuccessors<E, I, X>(lang: Language<E, X>, b: BasicBlock<E, I, X>): seq<Label> {
    lang.successorsOf(b.exit)
  }

  datatype Graph<E, I, X> = Graph(blocks: map<Label, BasicBlock<E, I, X>>)

  function Contains<E, I, X>(g: Graph<E, I, X>, l: Label): bool {
    l in g.blocks
  }

  /** `graph[label]`: the block stored under `l`; a label the graph does not hold panics. */
  function Index<E, I, X>(g: Graph<E, I, X>, l: Label): (r: Outcome<BasicBlock<E, I, X>>)
    ensures r.Ok? <==> Contains(g, l)
    ensures r.Ok? ==> r.value == g.blocks[l]
    ensures !r.Ok? ==> r == Panic(MissingKey)
  {
    if l in g.blocks then Ok(g.blocks[l]) else Panic(MissingKey)
  }

  /** No block later in `blocks` has the label of `blocks[i]`. */
  ghost predicate LastWithItsLabel<E, I, X>(lang: Language<E, X>, blocks: seq<BasicBlock<E, I, X>>, i: int)
    requires 0 <= i < |blocks|
  {
    forall j :: i < j < |blocks| ==> BlockLabel(lang, blocks[j]) != BlockLabel(lang, blocks[i])
  }

  /** Stores every block under its own label; of several blocks with one
      label, the one that comes last in the list is kept. */
  method FromBlocks<E, I, X>(lang: Language<E, X>, blocks: seq<BasicBlock<E, I, X>>) returns (g: Graph<E, I, X>)
    ensures forall l :: l in g.blocks <==> exists i :: 0 <= i < |blocks| && BlockLabel(lang, blocks[i]) == l
    ensures forall l :: l in g.blocks ==> BlockLabel(lang, g.blocks[l]) == l
    ensures forall i :: 0 <= i < |blocks| && LastWithItsLabel(lang, blocks, i) ==>
              g.blocks[BlockLabel(lang, blocks[i])] == blocks[i]
  {
    var m: map<Label, BasicBlock<E, I, X>> := map[];
    var k := 0;
    while k < |blocks|
      invariant 0 <= k <= |blocks|
      invariant forall l :: l in m <==> exists i :: 0 <= i < k && BlockLabel(lang, blocks[i]) == l
      invariant forall l :: l in m ==> BlockLabel(lang, m[l]) == l
      invariant forall i :: 0 <= i < k && (forall j :: i < j < k ==> BlockLabel(lang, blocks[j]) != BlockLabel(lang, blocks[i])) ==>
                  m[BlockLabel(lang, blocks[i])] == blocks[i]
    {
      m := m[BlockLabel(lang, blocks[k]) := blocks[k]];
      k := k + 1;
    }
    g := Graph(m);
  }

  // ---------------------------------------------------------------------------
  // Reachability through `successors()`

  /** `p` walks the graph: every label but the last is a block whose exit
      lists the next label. The last label need not be a block. */
  ghost predicate IsPath<E, I, X>(lang: Language<E, X>, g: Graph<E, I, X>, p: seq<Label>) {
    |p| > 0 &&
    forall i :: 0 <= i < |p| - 1 ==> p[i] in g.blocks && p[i + 1] in BlockSuccessors(lang, g.blocks[p[i]])
  }

  ghost predicate Reachable<E, I, X>(lang: Language<E, X>, g: Graph<E, I, X>, from: Label, to: Label) {
    exists p :: IsPath(lang, g, p) && p[0] == from && p[|p| - 1] == to
  }

  /** Every label of `s` is a block whose successors all lie in `s`. */
  ghost predicate Closed<E, I, X>(lang: Language<E, X>, g: Graph<E, I, X>, s: set<Label>) {
    forall v :: v in s ==> v in g.blocks && forall t :: t in BlockSuccessors(lang, g.blocks[v]) ==> t in s
  }

  lemma ReachableRefl<E, I, X>(lang: Language<E, X>, g: Graph<E, I, X>, l: Label)
    ensures Reachable(lang, g, l, l)
  {
    assert IsPath(lang, g, [l]);
  }

  lemma ReachableStep<E, I, X>(lang: Language<E, X>, g: Graph<E, I, X>, from: Label, mid: Label, to: Label)
    requires Reachable(lang, g, from, mid)
    requires mid in g.blocks && to in BlockSuccessors(lang, g.blocks[mid])
    ensures Reachable(lang, g, from, to)
  {
    var p :| IsPath(lang, g, p) && p[0] == from && p[|p| - 1] == mid;
    var q := p + [to];
    assert forall i :: 0 <= i < |q| - 1 ==> q[i] == p[i];
    assert IsPath(lang, g, q);
  }

  lemma ReachablePrepend<E, I, X>(lang: Language<E, X>, g: Graph<E, I, X>, from: Label, mid: Label, to: Label)
    requires from in g.blocks && mid in BlockSuccessors(lang, g.blocks[from])
    requires Reachable(lang, g, mid, to)
    ensures Reachable(lang, g, from, to)
  {
    var p :| IsPath(lang, g, p) && p[0] == mid && p[|p| - 1] == to;
    var q := [from] + p;
    assert forall i :: 1 <= i < |q| ==> q[i] == p[i - 1];
    assert IsPath(lang, g, q);
  }

  /** A closed set holding `from` holds everything reachable from it. */
  lemma {:induction false} ClosedHoldsReachable<E, I, X>(lang: Language<E, X>, g: Graph<E, I, X>, s: set<Label>, from: Label, to: Label)
    requires Closed(lang, g, s) && from in s
    requires Reachable(lang, g, from, to)
    ensures to in s
  {
    var p :| IsPath(lang, g, p) && p[0] == from && p[|p| - 1] == to;
    var i := 0;
    while i < |p| - 1
      invariant 0 <= i <= |p| - 1
      invariant p[i] in s
    {
      i := i + 1;
    }
  }

  lemma SubsetCard<T>(a: set<T>, b: set<T>)
    requires a <= b
    ensures |a| <= |b|
  {
    assert b == a + (b - a);
  }

  /** Visiting a new key leaves fewer keys unvisited: the traversal's measure. */
  lemma FewerUnvisited<T>(keys: set<T>, visited: set<T>, visited': set<T>, current: T)
    requires visited + {current} <= visited' && current in keys && current !in visited
    ensures |keys - visited'| < |keys - visited|
  {
    SubsetCard(keys - visited' + {current}, keys - visited);
  }

  lemma PrefixTransitive<T>(a: seq<T>, b: seq<T>, c: seq<T>)
    requires |a| <= |b| && b[..|a|] == a
    requires |b| <= |c| && c[..|b|] == b
    ensures c[..|a|] == a
  {
    assert c[..|a|] == c[..|b|][..|a|];
  }

  /** Post-order from `from` on survives an extension that is itself
      post-ordered from where the old sequence ended. */
  lemma PostOrderedExtend<E, I, X>(lang: Language<E, X>, g: Graph<E, I, X>, before: seq<Label>, after: seq<Label>, from: int)
    requires 0 <= from <= |before| <= |after| && after[..|before|] == before
    requires PostOrdered(lang, g, before, from) && PostOrdered(lang, g, after, |before|)
    ensures PostOrdered(lang, g, after, from)
  {
    forall i | from <= i < |before|
      ensures after[i] in g.blocks
      ensures forall t :: t in BlockSuccessors(lang, g.blocks[after[i]]) ==> t in after[..i] || Reachable(lang, g, t, after[i])
    {
      assert after[i] == before[i];
      assert after[..i] == before[..i];
    }
  }

  // ---------------------------------------------------------------------------
  // Post-order traversal

  /** The labels of `out` are blocks whose successors have all been visited. */
  ghost predicate Finished<E, I, X>(lang: Language<E, X>, g: Graph<E, I, X>, out: seq<Label>, visited: set<Label>) {
    forall i :: 0 <= i < |out| ==>
      out[i] in g.blocks && forall t :: t in BlockSuccessors(lang, g.blocks[out[i]]) ==> t in visited
  }

  /** Post-order from position `from` on: each successor of `out[i]` was
      listed before it, unless it leads back to `out[i]` (a cycle). */
  ghost predicate PostOrdered<E, I, X>(lang: Language<E, X>, g: Graph<E, I, X>, out: seq<Label>, from: int) {
    forall i :: 0 <= from <= i < |out| ==>
      out[i] in g.blocks &&
      forall t :: t in BlockSuccessors(lang, g.blocks[out[i]]) ==> t in out[..i] || Reachable(lang, g, t, out[i])
  }

  /** The labels visited but not yet listed: the ones whose visit is in progress. */
  ghost function Pending(out: seq<Label>, visited: set<Label>): set<Label> {
    set v | v in visited && v !in out
  }

  /** Every listed label is visited, listed once, and has all its
      successors visited. */
  ghost predicate Listed<E, I, X>(lang: Language<E, X>, g: Graph<E, I, X>, out: seq<Label>, visited: set<Label>) {
    (forall i :: 0 <= i < |out| ==> out[i] in visited) && NoDup(out) && Finished(lang, g, out, visited)
  }

  /** From (`output`, `visited`) to (`output'`, `visited'`) the traversal only
      added: labels reachable from `current` to `visited`, and labels in
      post-order to the end of `output`. */
  ghost predicate Grew<E, I, X>(lang: Language<E, X>, g: Graph<E, I, X>, output: seq<Label>, visited: set<Label>,
                                output': seq<Label>, visited': set<Label>, current: Label) {
    visited <= visited' &&
    |output| <= |output'| && output'[..|output|] == output &&
    (forall v :: v in visited' - visited ==> v in g.blocks && Reachable(lang, g, current, v)) &&
    PostOrdered(lang, g, output', |output|)
  }

  /** The recursive `go` of the traversal. `visited` and `output` are threaded
      through as values; `ok == false` is the panic of `graph.blocks[&label]`. */
  method Go<E, I, X>(lang: Language<E, X>, g: Graph<E, I, X>, output: seq<Label>, visited: set<Label>, current: Label)
    returns (ok: bool, output': seq<Label>, visited': set<Label>)
    requires Listed(lang, g, output, visited)
    requires forall v :: v in Pending(output, visited) ==> Reachable(lang, g, v, current)
    decreases |g.blocks.Keys - visited|, 2
    ensures ok ==> current in visited' && Grew(lang, g, output, visited, output', visited', current)
    ensures ok ==> Listed(lang, g, output', visited') && Pending(output', visited') == Pending(output, visited)
    ensures ok && current !in visited ==> |output'| > 0 && output'[|output'| - 1] == current
    ensures !ok ==> exists v :: Reachable(lang, g, current, v) && v !in g.blocks
  {
    if current in visited {
      ok, output', visited' := true, output, visited;
      assert output'[..|output|] == output;
      return;
    }
    ReachableRefl(lang, g, current);
    if current !in g.blocks {
      return false, output, visited + {current};
    }
    ok, output', visited' := GoSuccessors(lang, g, output, visited, current);
    if ok {
      // every successor has been visited: list the label itself
      ghost var mid := output';
      output' := output' + [current];
      ListCurrent(lang, g, output, visited, mid, visited', current);
    }
  }

  /** What holds while `go` walks the successors of `current`: the first `k`
      of them have been visited and nothing else has finished. */
  ghost predicate WalkingSuccessors<E, I, X>(lang: Language<E, X>, g: Graph<E, I, X>, output: seq<Label>, visited: set<Label>,
                                             current: Label, k: int, output': seq<Label>, visited': set<Label>) {
    current in g.blocks && 0 <= k <= |BlockSuccessors(lang, g.blocks[current])| &&
    visited + {current} <= visited' &&
    Grew(lang, g, output, visited, output', visited', current) &&
    Listed(lang, g, output', visited') &&
    Pending(output', visited') == Pending(output, visited) + {current} &&
    forall j :: 0 <= j < k ==> BlockSuccessors(lang, g.blocks[current])[j] in visited'
  }

  /** The `for` loop of `go` over the successors of `current`, which has just
      been marked visited. */
  method GoSuccessors<E, I, X>(lang: Language<E, X>, g: Graph<E, I, X>, output: seq<Label>, visited: set<Label>,
                               current: Label)
    returns (ok: bool, output': seq<Label>, visited': set<Label>)
    requires current !in visited && current in g.blocks
    requires Listed(lang, g, output, visited)
    requires forall v :: v in Pending(output, visited) ==> Reachable(lang, g, v, current)
    decreases |g.blocks.Keys - visited|, 1
    ensures ok ==> WalkingSuccessors(lang, g, output, visited, current, |BlockSuccessors(lang, g.blocks[current])|, output', visited')
    ensures !ok ==> exists v :: Reachable(lang, g, current, v) && v !in g.blocks
  {
    var succs := BlockSuccessors(lang, g.blocks[current]);
    output', visited' := output, visited + {current};
    assert output'[..|output|] == output;
    ReachableRefl(lang, g, current);
    var k := 0;
    while k < |succs|
      invariant WalkingSuccessors(lang, g, output, visited, current, k, output', visited')
    {
      ok, output', visited' := VisitSuccessor(lang, g, output, visited, current, k, output', visited');
      if !ok {
        return;
      }
      k := k + 1;
    }
    ok := true;
  }

  /** One turn of that loop: the recursive visit of the `k`-th successor. */
  method VisitSuccessor<E, I, X>(lang: Language<E, X>, g: Graph<E, I, X>, output: seq<Label>, visited: set<Label>,
                                 current: Label, k: int, out1: seq<Label>, vis1: set<Label>)
    returns (ok: bool, out2: seq<Label>, vis2: set<Label>)
    requires current !in visited
    requires forall v :: v in Pending(output, visited) ==> Reachable(lang, g, v, current)
    requires WalkingSuccessors(lang, g, output, visited, current, k, out1, vis1)
    requires k < |BlockSuccessors(lang, g.blocks[current])|
    decreases |g.blocks.Keys - visited|, 0
    ensures ok ==> WalkingSuccessors(lang, g, output, visited, current, k + 1, out2, vis2)
    ensures !ok ==> exists v :: Reachable(lang, g, current, v) && v !in g.blocks
  {
    var s := BlockSuccessors(lang, g.blocks[current])[k];
    ReachableRefl(lang, g, current);
    ReachesSuccessor(lang, g, Pending(output, visited) + {current}, current, s);
    FewerUnvisited(g.blocks.Keys, visited, vis1, current);
    ok, out2, vis2 := Go(lang, g, out1, vis1, s);
    if !ok {
      ghost var w :| Reachable(lang, g, s, w) && w !in g.blocks;
      ReachablePrepend(lang, g, current, s, w);
      return;
    }
    GrewTransitive(lang, g, output, visited, out1, vis1, out2, vis2, current, s);
  }

  /** Whatever reaches `current` reaches each of its successors. */
  lemma ReachesSuccessor<E, I, X>(lang: Language<E, X>, g: Graph<E, I, X>, p: set<Label>, current: Label, s: Label)
    requires current in g.blocks && s in BlockSuccessors(lang, g.blocks[current])
    requires forall v :: v in p ==> Reachable(lang, g, v, current)
    ensures forall v :: v in p ==> Reachable(lang, g, v, s)
  {
    forall v | v in p
      ensures Reachable(lang, g, v, s)
    {
      ReachableStep(lang, g, v, current, s);
    }
  }

  /** A visit of a successor `s` of `current` extends the visit of `current`. */
  lemma GrewTransitive<E, I, X>(lang: Language<E, X>, g: Graph<E, I, X>, output: seq<Label>, visited: set<Label>,
                                out1: seq<Label>, vis1: set<Label>, out2: seq<Label>, vis2: set<Label>,
                                current: Label, s: Label)
    requires current in g.blocks && s in BlockSuccessors(lang, g.blocks[current])
    requires Grew(lang, g, output, visited, out1, vis1, current)
    requires Grew(lang, g, out1, vis1, out2, vis2, s)
    ensures Grew(lang, g, output, visited, out2, vis2, current)
  {
    forall v | v in vis2 - visited
      ensures v in g.blocks && Reachable(lang, g, current, v)
    {
      if v !in vis1 {
        ReachablePrepend(lang, g, current, s, v);
      }
    }
    PrefixTransitive(output, out1, out2);
    PostOrderedExtend(lang, g, out1, out2, |output|);
  }

  /** Appending `current` once all its successors are visited keeps the
      traversal's invariants and ends its visit. */
  lemma ListCurrent<E, I, X>(lang: Language<E, X>, g: Graph<E, I, X>, output: seq<Label>, visited: set<Label>,
                             mid: seq<Label>, vis: set<Label>, current: Label)
    requires current !in visited && current in g.blocks
    requires Grew(lang, g, output, visited, mid, vis, current)
    requires Listed(lang, g, mid, vis)
    requires Pending(mid, vis) == Pending(output, visited) + {current}
    requires forall t :: t in BlockSuccessors(lang, g.blocks[current]) ==> t in vis
    requires forall v :: v in Pending(output, visited) ==> Reachable(lang, g, v, current)
    ensures Pending(mid + [current], vis) == Pending(output, visited)
    ensures Listed(lang, g, mid + [current], vis)
    ensures Grew(lang, g, output, visited, mid + [current], vis, current)
  {
    var out := mid + [current];
    assert current in Pending(mid, vis);
    assert out[..|output|] == output by {
      assert out[..|mid|] == mid;
      assert out[..|output|] == out[..|mid|][..|output|];
    }
    assert PostOrdered(lang, g, out, |output|) by {
      forall i | |output| <= i < |out|
        ensures out[i] in g.blocks
        ensures forall t :: t in BlockSuccessors(lang, g.blocks[out[i]]) ==> t in out[..i] || Reachable(lang, g, t, out[i])
      {
        if i < |mid| {
          assert out[..i] == mid[..i];
        } else {
          assert out[..i] == mid;
          forall t | t in BlockSuccessors(lang, g.blocks[current])
            ensures t in mid || Reachable(lang, g, t, current)
          {
            if t !in mid {
              assert t in Pending(mid, vis);
              if t == current {
                ReachableRefl(lang, g, current);
              }
            }
          }
        }
      }
    }
  }

  /** `post_order_traversal(entry)`: the labels reachable from `entry`, each
      once, every block after the successors it does not loop back from, and
      `entry` last. It panics exactly when some reachable label has no block. */
  method PostOrderTraversal<E, I, X>(lang: Language<E, X>, g: Graph<E, I, X>, entry: Label) returns (r: Outcome<seq<Label>>)
    ensures r.Ok? || r == Panic(MissingKey)
    ensures r.Ok? <==> forall v :: Reachable(lang, g, entry, v) ==> v in g.blocks
    ensures r.Ok? ==> forall v :: v in r.value <==> Reachable(lang, g, entry, v)
    ensures r.Ok? ==> NoDup(r.value)
    ensures r.Ok? ==> |r.value| > 0 && r.value[|r.value| - 1] == entry
    ensures r.Ok? ==> PostOrdered(lang, g, r.value, 0)
  {
    var ok, output, visited := Go(lang, g, [], {}, entry);
    if !ok {
      return Panic(MissingKey);
    }
    assert Pending(output, visited) == {};
    assert forall v :: v in visited ==> v in output by {
      forall v | v in visited ensures v in output {
        assert v !in Pending(output, visited);
      }
    }
    assert Closed(lang, g, visited) by {
      forall v | v in visited
        ensures v in g.blocks && forall t :: t in BlockSuccessors(lang, g.blocks[v]) ==> t in visited
      {
        var i :| 0 <= i < |output| && output[i] == v;
      }
    }
    forall v | Reachable(lang, g, entry, v)
      ensures v in visited
    {
      ClosedHoldsReachable(lang, g, visited, entry, v);
    }
    r := Ok(output);
  }

  /** `code.splice(index..index + 1, insts)`: the one instruction at `index`
      is replaced by `insts`, the rest of the block kept around them. */
  function SpliceOne<I>(code: seq<I>, index: nat, insts: seq<I>): (r: seq<I>)
    requires index < |code|
    ensures |r| == |code| - 1 + |insts|
    ensures r[..index] == code[..index] && r[index..index + |insts|] == insts && r[index + |insts|..] == code[index + 1..]
  {
    var s := code[..index] + insts + code[index + 1..];
    assert s[index..index + |insts|] == insts;
    assert s[index + |insts|..] == code[index + 1..];
    s
  }
}
