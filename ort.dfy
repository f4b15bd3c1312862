/** The values exchanged with the inference library (onnxruntime-web).
    The library itself is not modelled: building and running a session are
    parameters of the members that use them. */
module Ort {

  /** `ort.Tensor('float32', data, dims)`: a flat buffer and its logical shape.
      Float32 values are modelled as exact reals. */
  datatype Tensor = Tensor(dims: seq<nat>, data: seq<real>)

  /** A built inference session, seen only through the names of its inputs
      and outputs. */
  datatype Session = Session(inputNames: seq<string>, outputNames: seq<string>)

  /** The number of values a tensor of the given shape holds. */
  function ShapeSize(dims: seq<nat>): nat
  {
    if dims == [] then 1 else dims[0] * ShapeSize(dims[1..])
  }
}
