/** The per-instruction graph: a list of regions, each a list of nodes that
    are either an instruction or a marker forwarding to the start of another
    region. Region 0, entered at `ENTRY`, is the program. */
module PcGraph {
  import opened Common
  import opened PcLabels

  /** `Node::Instruction(i)` or `Node::SubGraph(n)`. */
  datatype Node<I> = Instruction(inst: I) | SubGraph(number: u32)

  /** `SubGraph { number, entry, nodes }`: `entry` is where control returns
      to when it runs off the end of the region. */
  datatype Region<I> = Region(number: u32, entry: Label, nodes: seq<Node<I>>)

  datatype Graph<I> = Graph(subGraphs: seq<Region<I>>)

  const ENTRY: Label := Label(0, 0)

  const LABEL_FORWARD_LIMIT: nat := 10000

  /** `Graph::new`: one region, numbered 0 and entered at `ENTRY`, with one
      instruction node per instruction of `code`, in order. */
  function NewGraph<I>(code: seq<I>): (g: Graph<I>)
    ensures |g.subGraphs| == 1 && g.subGraphs[0].number == 0 && g.subGraphs[0].entry == ENTRY
    ensures |g.subGraphs[0].nodes| == |code|
    ensures forall i :: 0 <= i < |code| ==> g.subGraphs[0].nodes[i] == Instruction(code[i])
  {
    Graph([Region(0, ENTRY, seq(|code|, i requires 0 <= i < |code| => Instruction(code[i])))])
  }

  /** `l` names an existing region and a position inside it. */
  predicate InRange<I>(g: Graph<I>, l: Label) {
    l.subGraph as int < |g.subGraphs| && l.index as int < |g.subGraphs[l.subGraph].nodes|
  }

  /** `l` addresses an instruction node. */
  predicate AtInstruction<I>(g: Graph<I>, l: Label) {
    InRange(g, l) && g.subGraphs[l.subGraph].nodes[l.index].Instruction?
  }

  /** `get_node`: indexing the region list and then the region's nodes,
      either of which panics when out of range. */
  function GetNode<I>(g: Graph<I>, l: Label): (r: Outcome<Node<I>>)
    ensures r.Ok? <==> InRange(g, l)
    ensures r.Ok? ==> r.value == g.subGraphs[l.subGraph].nodes[l.index]
    ensures !r.Ok? ==> r == Panic(IndexOutOfRange)
  {
    if l.subGraph as int >= |g.subGraphs| then Panic(IndexOutOfRange)
    else if l.index as int >= |g.subGraphs[l.subGraph].nodes| then Panic(IndexOutOfRange)
    else Ok(g.subGraphs[l.subGraph].nodes[l.index])
  }

  /** `forward_label`: an instruction node stays put and stops forwarding;
      a `SubGraph(n)` marker moves to `(n, 0)` and asks to continue. */
  function ForwardLabel<I>(g: Graph<I>, l: Label): (r: Outcome<(Label, bool)>)
    ensures r.Ok? <==> InRange(g, l)
    ensures r.Ok? && AtInstruction(g, l) ==> r.value == (l, false)
    ensures r.Ok? && !AtInstruction(g, l) ==> r.value == (Label(g.subGraphs[l.subGraph].nodes[l.index].number, 0), true)
    ensures !r.Ok? ==> r == Panic(IndexOutOfRange)
  {
    var node := GetNode(g, l);
    if !node.Ok? then Fail(node)
    else match node.value
      case Instruction(_) => Ok((l, false))
      case SubGraph(n) => Ok((Label(n, 0), true))
  }

  /** Forwarding with `steps` steps left: the result addresses an
      instruction; a label that already does is returned unchanged. */
  function Forwarded<I>(g: Graph<I>, l: Label, steps: nat): (r: Outcome<Label>)
    ensures r.Ok? ==> AtInstruction(g, r.value)
    ensures AtInstruction(g, l) && steps > 0 ==> r == Ok(l)
    ensures !r.Ok? ==> r == Panic(IndexOutOfRange) || r == Panic(SubGraphLoop)
    decreases steps
  {
    if steps == 0 then Panic(SubGraphLoop)
    else
      var f := ForwardLabel(g, l);
      if !f.Ok? then Fail(f)
      else if !f.value.1 then Ok(f.value.0)
      else Forwarded(g, f.value.0, steps - 1)
  }

  /** What `forward_label_completely` computes: at most 10 000 forwarding
      steps, then "sub graph loop detected". */
  function ForwardCompletely<I>(g: Graph<I>, l: Label): (r: Outcome<Label>)
    ensures r.Ok? ==> AtInstruction(g, r.value)
    ensures AtInstruction(g, l) ==> r == Ok(l)
  {
    Forwarded(g, l, LABEL_FORWARD_LIMIT)
  }

  /** `forward_label_completely`: the bounded `for` loop. */
  method ForwardLabelCompletely<I>(g: Graph<I>, l: Label) returns (r: Outcome<Label>)
    ensures r == ForwardCompletely(g, l)
  {
    var current := l;
    for step := 0 to LABEL_FORWARD_LIMIT
      invariant Forwarded(g, current, LABEL_FORWARD_LIMIT - step) == ForwardCompletely(g, l)
    {
      var f := ForwardLabel(g, current);
      if !f.Ok? {
        return Fail(f);
      }
      var (newLabel, cont) := f.value;
      if !cont {
        return Ok(newLabel);
      }
      current := newLabel;
    }
    r := Panic(SubGraphLoop);
  }

  /** `backward_label`: the entry recorded for `l`'s region. */
  function BackwardLabel<I>(g: Graph<I>, l: Label): (r: Outcome<Label>)
    ensures r.Ok? <==> l.subGraph as int < |g.subGraphs|
    ensures r.Ok? ==> r.value == g.subGraphs[l.subGraph].entry
  {
    if l.subGraph as int < |g.subGraphs| then Ok(g.subGraphs[l.subGraph].entry) else Panic(IndexOutOfRange)
  }

  /** `SubGraph::contains`: `l` names this region and a position in it. */
  predicate RegionContains<I>(region: Region<I>, l: Label) {
    region.number == l.subGraph && (l.index as int) < |region.nodes|
  }

  /** `node_exists`: looks `l`'s region up by position and asks it. */
  function NodeExists<I>(g: Graph<I>, l: Label): (r: Outcome<bool>)
    ensures r.Ok? <==> l.subGraph as int < |g.subGraphs|
    ensures r.Ok? ==> (r.value <==> RegionContains(g.subGraphs[l.subGraph], l))
  {
    if l.subGraph as int < |g.subGraphs| then Ok(RegionContains(g.subGraphs[l.subGraph], l)) else Panic(IndexOutOfRange)
  }

  /** Each region sits at the position of its own number, as the only
      region `Graph::new` creates does. */
  predicate WellNumbered<I>(g: Graph<I>) {
    forall i :: 0 <= i < |g.subGraphs| ==> g.subGraphs[i].number as int == i
  }

  /** In a well-numbered graph a node exists exactly when its label is in
      range. */
  lemma ExistsIffInRange<I>(g: Graph<I>, l: Label)
    requires WellNumbered(g) && l.subGraph as int < |g.subGraphs|
    ensures NodeExists(g, l) == Ok(InRange(g, l))
  {
  }

  /** `Graph::new` builds a well-numbered graph. */
  lemma NewGraphWellNumbered<I>(code: seq<I>)
    ensures WellNumbered(NewGraph(code))
  {
  }

  /** `get_instruction`: the instruction at the forwarded label. Its
      "can't happen because of forwarding" panic indeed never happens. */
  function GetInstruction<I>(g: Graph<I>, l: Label): (r: Outcome<I>)
    ensures r.Ok? <==> ForwardCompletely(g, l).Ok?
    ensures r.Ok? ==> GetNode(g, ForwardCompletely(g, l).value) == Ok(Instruction(r.value))
    ensures r != Panic(ForwardingBroken)
  {
    var f := ForwardCompletely(g, l);
    if !f.Ok? then Fail(f)
    else Ok(g.subGraphs[f.value.subGraph].nodes[f.value.index].inst)
  }

  /** The label after `l` as `next_pc` computes it, with `fuel` rounds of
      its `loop` left: step the index (a `u32`, so stepping past its largest
      value panics), forward, and return the result if the node exists;
      otherwise region 0 panics and any other region restarts from its
      entry. */
  function NextPcFrom<I>(g: Graph<I>, l: Label, fuel: nat): (r: Outcome<Label>)
    ensures r.Ok? ==> AtInstruction(g, r.value)
    decreases fuel
  {
    if fuel == 0 then OutOfFuel
    else if l.index as int + 1 >= 0x1_0000_0000 then Panic(Overflow)
    else
      var f := ForwardCompletely(g, Label(l.subGraph, l.index + 1));
      if !f.Ok? then f
      else if RegionContains(g.subGraphs[f.value.subGraph], f.value) then f
      else if f.value.subGraph == 0 then Panic(EndOfProgram)
      else NextPcFrom(g, g.subGraphs[f.value.subGraph].entry, fuel - 1)
  }

  /** `next_pc`: the `loop` itself, with a budget of `fuel` rounds. */
  method NextPc<I>(g: Graph<I>, l: Label, fuel: nat) returns (r: Outcome<Label>)
    ensures r == NextPcFrom(g, l, fuel)
  {
    var current := l;
    var budget := fuel;
    while budget > 0
      invariant NextPcFrom(g, current, budget) == NextPcFrom(g, l, fuel)
      decreases budget
    {
      if current.index as int + 1 >= 0x1_0000_0000 {
        return Panic(Overflow);
      }
      var f := ForwardLabelCompletely(g, Label(current.subGraph, current.index + 1));
      if !f.Ok? {
        return f;
      }
      current := f.value;
      var present := NodeExists(g, current);
      if present.value {
        return Ok(current);
      }
      if current.subGraph == 0 {
        return Panic(EndOfProgram);
      }
      current := BackwardLabel(g, current).value;
      budget := budget - 1;
    }
    r := OutOfFuel;
  }

  /** In a well-numbered graph `next_pc` never loops: it is the forwarded
      label of the next position. In particular stepping past the last node
      of a region panics on the index before the end-of-region check can
      run, so neither the end-of-program panic nor the return to the
      region's entry is ever reached. */
  lemma NextPcWellNumbered<I>(g: Graph<I>, l: Label, fuel: nat)
    requires WellNumbered(g) && fuel > 0 && l.index as int + 1 < 0x1_0000_0000
    ensures NextPcFrom(g, l, fuel) == ForwardCompletely(g, Label(l.subGraph, l.index + 1))
    ensures InRange(g, l) && l.index as int + 1 == |g.subGraphs[l.subGraph].nodes| ==>
              NextPcFrom(g, l, fuel) == Panic(IndexOutOfRange)
  {
    var next := Label(l.subGraph, l.index + 1);
    var f := ForwardCompletely(g, next);
    if f.Ok? {
      ExistsIffInRange(g, f.value);
    }
    if InRange(g, l) && l.index as int + 1 == |g.subGraphs[l.subGraph].nodes| {
      assert !InRange(g, next);
      assert ForwardLabel(g, next) == Panic(IndexOutOfRange);
    }
  }

  /** Every label position of the graph. */
  ghost function Positions<I>(g: Graph<I>): set<Label> {
    set s: u32, i: u32 | (s as int) < |g.subGraphs| && (i as int) < |g.subGraphs[s].nodes| :: Label(s, i)
  }

  /** The label `l` forwards to; the model only asks for it where forwarding
      succeeds. */
  ghost function Fwd<I>(g: Graph<I>, l: Label): Label
    requires ForwardCompletely(g, l).Ok?
  {
    ForwardCompletely(g, l).value
  }

  /** Every recorded label forwards to a label that has been seen, and no
      two recorded labels forward to the same one. */
  ghost predicate Recorded<I>(g: Graph<I>, output: seq<Label>, seen: set<Label>) {
    (forall i :: 0 <= i < |output| ==> ForwardCompletely(g, output[i]).Ok? && Fwd(g, output[i]) in seen) &&
    (forall i, j :: 0 <= i < j < |output| ==> Fwd(g, output[i]) != Fwd(g, output[j]))
  }

  /** The walk grew `output` to `output'` and `seen` to `seen'`, and every
      label it added forwards to a label not seen before the walk. */
  ghost predicate Extended<I>(g: Graph<I>, output: seq<Label>, seen: set<Label>, output': seq<Label>, seen': set<Label>) {
    seen <= seen' && |output| <= |output'| && output'[..|output|] == output &&
    (forall i :: |output| <= i < |output'| ==> ForwardCompletely(g, output'[i]).Ok? && Fwd(g, output'[i]) !in seen)
  }

  /** The recursive `go` of `post_order_traversal`: forward `current`; if
      its forwarded label is new, walk the fallthrough (through `next_pc`)
      and then each jump, and record `current` itself, unforwarded. */
  method PcGo<I>(g: Graph<I>, successorsOf: I -> Successors, seen: set<Label>, output: seq<Label>,
                 current: Label, pcFuel: nat)
    returns (r: Outcome<(set<Label>, seq<Label>)>)
    requires Recorded(g, output, seen)
    ensures r.Ok? ==> Recorded(g, r.value.1, r.value.0) && Extended(g, output, seen, r.value.1, r.value.0)
    ensures r.Ok? ==> ForwardCompletely(g, current).Ok? && Fwd(g, current) in r.value.0
    ensures r.Ok? ==> (|r.value.1| > |output| <==> Fwd(g, current) !in seen)
    ensures r.Ok? && |r.value.1| > |output| ==> r.value.1[|r.value.1| - 1] == current
    decreases Positions(g) - seen
  {
    var fwd := ForwardLabelCompletely(g, current);
    if !fwd.Ok? {
      return Fail(fwd);
    }
    var forwarded := fwd.value;
    if forwarded in seen {
      return Ok((seen, output));
    }
    assert forwarded in Positions(g);
    var seen1, out1 := seen + {forwarded}, output;
    var successors := successorsOf(GetInstruction(g, forwarded).value);
    if successors.fallthrough {
      var next := NextPc(g, forwarded, pcFuel);
      if !next.Ok? {
        return Fail(next);
      }
      var sub := PcGo(g, successorsOf, seen1, out1, next.value, pcFuel);
      if !sub.Ok? {
        return sub;
      }
      seen1, out1 := sub.value.0, sub.value.1;
    }
    for k := 0 to |successors.jumps|
      invariant Recorded(g, out1, seen1) && Extended(g, output, seen + {forwarded}, out1, seen1)
    {
      var sub := PcGo(g, successorsOf, seen1, out1, successors.jumps[k], pcFuel);
      if !sub.Ok? {
        return sub;
      }
      ExtendedTransitive(g, output, seen + {forwarded}, out1, seen1, sub.value.1, sub.value.0);
      seen1, out1 := sub.value.0, sub.value.1;
    }
    RecordCurrent(g, output, seen, out1, seen1, current);
    r := Ok((seen1, out1 + [current]));
  }

  lemma ExtendedTransitive<I>(g: Graph<I>, o0: seq<Label>, s0: set<Label>, o1: seq<Label>, s1: set<Label>,
                              o2: seq<Label>, s2: set<Label>)
    requires Extended(g, o0, s0, o1, s1) && Extended(g, o1, s1, o2, s2)
    ensures Extended(g, o0, s0, o2, s2)
  {
    assert o2[..|o0|] == o1[..|o0|];
  }

  /** Recording `current` after its walk keeps the recorded labels'
      forwarded labels distinct. */
  lemma RecordCurrent<I>(g: Graph<I>, output: seq<Label>, seen: set<Label>, out1: seq<Label>, seen1: set<Label>, current: Label)
    requires ForwardCompletely(g, current).Ok? && Fwd(g, current) !in seen && Fwd(g, current) in seen1
    requires Recorded(g, output, seen) && Recorded(g, out1, seen1)
    requires Extended(g, output, seen + {Fwd(g, current)}, out1, seen1)
    ensures Recorded(g, out1 + [current], seen1) && Extended(g, output, seen, out1 + [current], seen1)
  {
    var out2 := out1 + [current];
    forall i | 0 <= i < |out1|
      ensures Fwd(g, out1[i]) != Fwd(g, current)
    {
      if i < |output| {
        assert out1[i] == output[i];
      }
    }
    assert out2[..|output|] == output by {
      assert out1[..|output|] == output;
    }
  }

  /** `post_order_traversal`: the labels reached from `start`, recorded as
      given (not forwarded) after everything reached from them; `start`
      comes last, and no two recorded labels forward to the same
      instruction. */
  method PcPostOrderTraversal<I>(g: Graph<I>, successorsOf: I -> Successors, start: Label, pcFuel: nat)
    returns (r: Outcome<seq<Label>>)
    ensures r.Ok? ==> |r.value| > 0 && r.value[|r.value| - 1] == start
    ensures r.Ok? ==> forall i :: 0 <= i < |r.value| ==> ForwardCompletely(g, r.value[i]).Ok?
    ensures r.Ok? ==> forall i, j :: 0 <= i < j < |r.value| ==> Fwd(g, r.value[i]) != Fwd(g, r.value[j])
  {
    var walked := PcGo(g, successorsOf, {}, [], start, pcFuel);
    if !walked.Ok? {
      return Fail(walked);
    }
    r := Ok(walked.value.1);
  }
}
