/**
 Operations as the lists of file states they pass through, one per file
 operation, and what a crash leaves of them.
 */
module CrashTraces {
  import opened Wrappers

  /** The state an operation from `f` ends in. */
  function Last<T>(f: T, trace: seq<T>): T {
    if trace == [] then f else trace[|trace| - 1]
  }

  /** One call: an operation, and after how many file operations a crash stops it, if any. */
  datatype Call<Op> = Call(op: Op, crash: Option<nat>)

  predicate Completes<T>(trace: seq<T>, crash: Option<nat>) {
    crash.None? || crash.value >= |trace|
  }

  function Stopped<T>(f: T, trace: seq<T>, crash: Option<nat>): T {
    if Completes(trace, crash) then Last(f, trace)
    else if crash.value == 0 then f
    else trace[crash.value - 1]
  }

  lemma LastOfBoth<T>(f: T, a: seq<T>, b: seq<T>)
    ensures Last(f, a + b) == Last(Last(f, a), b)
  {
  }
}
