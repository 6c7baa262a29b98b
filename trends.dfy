/**
 * The trend window shared by the climate and soil-moisture services: the last N values of a
 * series (with the slice semantics of `values[-N:]`) and the change from its first to its last value.
 */
module Trends {

  /**
   * The suffix `values[-n:]`. Because -0 is 0, a window of size 0 is the whole series, and a
   * window longer than the series is the whole series too.
   */
  function LastN<T>(values: seq<T>, n: nat): (r: seq<T>)
    ensures |r| == if 0 < n < |values| then n else |values|
    ensures forall i :: 0 <= i < |r| ==> r[i] == values[|values| - |r| + i]
  {
    if 0 < n < |values| then values[|values| - n..] else values
  }

  /** The index in the series at which the window of size n begins. */
  function WindowStart(length: nat, n: nat): nat
  {
    if 0 < n < length then length - n else 0
  }

  /** `values[-1] - values[0]`: the change across a non-empty window. */
  function Delta(values: seq<real>): real
    requires |values| > 0
  {
    values[|values| - 1] - values[0]
  }
}
