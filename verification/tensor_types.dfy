/** Deriving a serving tensor's shape and numpy element type from an example
    Python value (megatrongpt_deployable.py, GetTensorShape and GetNumpyDtype). */
module TensorTypes {
  import opened PyValues

  /** The numpy element types the adapter declares: `bytes`, `np.bool_`,
      `np.single` and `np.int_`. */
  datatype Dtype = Bytes | NpBool | Single | NpInt

  /** A tensor shape; the dimension -1 is variable-length. */
  type Shape = seq<int>

  /** A list is a variable-length dimension, anything else a scalar of size one. */
  function GetTensorShape(v: PyValue): (shape: Shape)
    ensures |shape| == 1
    ensures shape[0] == -1 <==> v.List?
    ensures shape[0] == 1 <==> !v.List?
  {
    [if TypeOf(v) == ListType then -1 else 1]
  }

  /** The dispatch table from a Python type to its numpy type. */
  const PY_TO_NUMPY: map<PyType, Dtype> :=
    map[StrType := Bytes, BoolType := NpBool, FloatType := Single, IntType := NpInt]

  predicate IsScalar(v: PyValue)
  {
    v.Str? || v.Bool? || v.Float? || v.Int?
  }

  /** The values a dtype can be derived from: a scalar, or a non-empty list
      whose first item is a scalar. */
  predicate Describable(v: PyValue)
  {
    IsScalar(v) || (v.List? && |v.items| > 0 && IsScalar(v.items[0]))
  }

  /** The numpy type of a value; for a list, of its first item. An empty list
      raises IndexError and a type outside the table raises KeyError. */
  function GetNumpyDtype(v: PyValue): (r: Result<Dtype>)
    ensures r.Success? <==> Describable(v)
    ensures v.Str? ==> r == Success(Bytes)
    ensures v.Bool? ==> r == Success(NpBool)
    ensures v.Float? ==> r == Success(Single)
    ensures v.Int? ==> r == Success(NpInt)
    ensures v.Other? ==> r == Failure(KeyError(v.typeName))
    ensures v.List? && |v.items| == 0 ==> r == Failure(IndexError)
    ensures v.List? && |v.items| > 0 ==>
      r == if v.items[0].List? then Failure(KeyError("list")) else GetNumpyDtype(v.items[0])
  {
    var pythonType :- if TypeOf(v) == ListType then
                        var first :- Subscript0(v);
                        Success(TypeOf(first))
                      else Success(TypeOf(v));
    if pythonType in PY_TO_NUMPY then Success(PY_TO_NUMPY[pythonType])
    else Failure(KeyError(TypeName(pythonType)))
  }
}
