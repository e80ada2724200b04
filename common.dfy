/** Values shared by every part of the model: optional values, machine
    integer ranges, and the outcome of a computation that may panic. */
module Common {

  datatype Option<T> = None | Some(value: T)

  /** Rust's `u32` and `usize` (64-bit targets) as ranges of the unbounded integers. */
  newtype u32 = x: int | 0 <= x < 0x1_0000_0000
  newtype usize = x: int | 0 <= x < 0x1_0000_0000_0000_0000

  /** Why the source panics. Every variant names one `panic!`, failed `expect`,
      failed `unwrap` or out-of-range index of the source. */
  datatype Abort =
    | MissingKey           // `map[&key]` or `graph[label]` on a key that is absent
    | MissingFact          // `expect("We should always have a fact to start from")`
    | IndexOutOfRange      // `vec[i]` with `i >= len`
    | SpliceOutOfRange     // `vec.splice(a..b, ..)` with `b > len`
    | Unimplemented        // a sub-graph rewrite, or a pc `Single`/`Many` rewrite
    | SubGraphLoop         // region forwarding exceeded its step limit
    | EndOfProgram         // `next_pc` ran off the end of region 0
    | ForwardingBroken     // "can't happen because of forwarding"
    | Unwrap               // `.unwrap()` on `None`
    | Overflow             // integer overflow or underflow (debug build semantics)

  /** The result of a computation: a value, a panic, or (for loops whose
      termination depends on client code) running out of the step budget. */
  datatype Outcome<T> = Ok(value: T) | Panic(why: Abort) | OutOfFuel

  /** Re-types a failed outcome, keeping its failure. */
  function Fail<A, B>(o: Outcome<A>): (r: Outcome<B>)
    requires !o.Ok?
    ensures !r.Ok? && (r.Panic? <==> o.Panic?) && (r.Panic? ==> r.why == o.why)
  {
    if o.Panic? then Panic(o.why) else OutOfFuel
  }

  /** No element occurs twice. */
  ghost predicate NoDup<T>(s: seq<T>) {
    forall i, j :: 0 <= i < j < |s| ==> s[i] != s[j]
  }
}
