/** Types shared by the components of the model. */
module Basics {
  datatype Option<+T> = None | Some(value: T)

  datatype Result<+T, +E> = Ok(value: T) | Err(error: E)

  function Repeat<T>(x: T, k: nat): (r: seq<T>)
    ensures |r| == k
    ensures forall i :: 0 <= i < k ==> r[i] == x
  {
    seq(k, i => x)
  }

  // Words of the wire protocol that several components share.

  datatype ToolType = Function | Custom

  datatype Phase = Commentary | FinalAnswer
}
