/** The result record: named arrays, each tagged with its dimension names.
    Arrays are kept as a shape and the row-major list of their elements. */
module Dataset {

  datatype NdArray = NdArray(shape: seq<nat>, data: seq<int>)

  /** The number of elements an array of the given shape holds. */
  function Size(shape: seq<nat>): nat
  {
    if shape == [] then 1 else shape[0] * Size(shape[1..])
  }

  /** One named field of the record: `(dims, values)`. */
  datatype Variable = Variable(dims: seq<string>, values: NdArray)

  /** The record, by field name. */
  type Record = map<string, Variable>

  /** A one-dimensional array of the given values. */
  function Vector(xs: seq<int>): (a: NdArray)
    ensures |a.shape| == 1 && Size(a.shape) == |a.data|
  {
    NdArray([|xs|], xs)
  }

  /** An observation coordinate list as it is stored: a non-empty list is
      kept as it is, while an empty list is wrapped into a list holding that
      empty list, which has one row and no element. */
  function ObsArray(xs: seq<int>): (a: NdArray)
    ensures a.data == xs && Size(a.shape) == |xs|
    ensures |a.shape| >= 1 && a.shape[0] >= 1
    ensures |xs| > 0 ==> a == Vector(xs)
  {
    if |xs| == 0 then NdArray([1, 0], xs) else Vector(xs)
  }
}
