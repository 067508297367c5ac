/** The four-dimensional shape of a Caffe blob. */
module Blobs {

  /** `num x channels x height x width`. */
  datatype Shape = Shape(num: nat, channels: nat, height: nat, width: nat)

  /** Number of elements of a blob of shape `s`. */
  function Count(s: Shape): nat
  {
    s.num * s.channels * s.height * s.width
  }
}
