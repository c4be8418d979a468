/** The fixed-capacity vectors and strings of the `heapless` crate, as sequences. */
module Heapless {
  import opened RustStr

  /** `Vec::push` with the error ignored: a full vector is left as it is. */
  function PushBounded<T>(xs: seq<T>, x: T, capacity: nat): (r: seq<T>)
    ensures |xs| < capacity ==> r == xs + [x]
    ensures |xs| >= capacity ==> r == xs
  {
    if |xs| < capacity then xs + [x] else xs
  }

  /** A bounded push keeps every earlier element in place and never exceeds the capacity. */
  lemma PushBoundedKeeps<T>(xs: seq<T>, x: T, capacity: nat)
    requires |xs| <= capacity
    ensures |PushBounded(xs, x, capacity)| <= capacity
    ensures xs <= PushBounded(xs, x, capacity)
  {
  }

  /**
   * `String::push_str` with the error ignored: text that would take the
   * string past its capacity in bytes is not appended at all.
   */
  function PushStr(s: string, t: string, capacity: nat): (r: string)
    ensures Utf8Len(s + t) <= capacity ==> r == s + t
    ensures Utf8Len(s + t) > capacity ==> r == s
  {
    if Utf8Len(s + t) <= capacity then s + t else s
  }
}
