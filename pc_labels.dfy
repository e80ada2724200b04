/** Labels and successor descriptions of the per-instruction engine: a label
    is a region number and a position inside that region. */
module PcLabels {
  import opened Common

  /** `Label { sub_graph, index }`, built by `Label::new(sub_graph, index)`
      and read back by `sub_graph()` and `index()`. Labels are equal exactly
      when both components are. */
  datatype Label = Label(subGraph: u32, index: u32)

  /** Where control may go after an instruction: on to the next one
      (`fallthrough`) and to each label of `jumps`. */
  datatype Successors = Successors(fallthrough: bool, jumps: seq<Label>)

  /** Control passes from an instruction whose next pc is `next` to `t`. */
  predicate PassesTo(s: Successors, next: Label, t: Label) {
    (s.fallthrough && t == next) || t in s.jumps
  }

  /** `Successors::fallthrough()`. */
  function FallthroughOnly(): (s: Successors)
    ensures s.fallthrough && s.jumps == []
    ensures forall next, t :: PassesTo(s, next, t) <==> t == next
  {
    Successors(true, [])
  }

  /** `Successors::conditional(jumps)`. */
  function Conditional(jumps: seq<Label>): (s: Successors)
    ensures s.fallthrough && s.jumps == jumps
    ensures forall next, t :: PassesTo(s, next, t) <==> t == next || t in jumps
  {
    Successors(true, jumps)
  }

  /** `Successors::halt()`. */
  function Halt(): (s: Successors)
    ensures !s.fallthrough && s.jumps == []
    ensures forall next, t :: !PassesTo(s, next, t)
  {
    Successors(false, [])
  }

  /** `Successors::goto(jumps)`. */
  function Goto(jumps: seq<Label>): (s: Successors)
    ensures !s.fallthrough && s.jumps == jumps
    ensures forall next, t :: PassesTo(s, next, t) <==> t in jumps
  {
    Successors(false, jumps)
  }

  /** Every successor description is built by `conditional` or `goto`, and
      those two with no jumps are `fallthrough` and `halt`. */
  lemma SuccessorsBuilt(s: Successors)
    ensures s == if s.fallthrough then Conditional(s.jumps) else Goto(s.jumps)
    ensures Conditional([]) == FallthroughOnly() && Goto([]) == Halt()
  {
  }
}
