/** What several modules of this project share. */
module Wrappers {

  datatype Option<+T> = None | Some(value: T)

  function Zeros(n: nat): (z: seq<nat>)
    ensures |z| == n && forall k :: 0 <= k < n ==> z[k] == 0
  {
    seq(n, _ => 0)
  }
}
