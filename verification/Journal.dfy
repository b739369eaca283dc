/** Records of what was asked of the outside world, and how it answered. An object that
    stands for a part of that world appends to its own record whenever it is asked, so
    that a caller cannot blame an answer it never got. */
module Journals {
  /** One request, and whether it was met. */
  datatype Attempted<+T> = Attempted(step: T, ok: bool)

  /** The steps were taken in this order up to the first one that failed; `ok` tells
      that none did. */
  ghost predicate InTurn<T(!new)>(entries: seq<Attempted<T>>, steps: seq<T>, ok: bool) {
    var n := |entries|;
    && n <= |steps| && (if ok then n == |steps| else n > 0)
    && forall i :: 0 <= i < n ==> entries[i] == Attempted(steps[i], ok || i < n - 1)
  }

  /** The step was taken and worked. */
  ghost predicate Did<T(!new)>(entries: seq<Attempted<T>>, step: T) {
    Attempted(step, true) in entries
  }
}
