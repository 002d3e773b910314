/** The tensor descriptors the deployable declares to the serving runtime
    (megatrongpt_deployable.py, get_triton_input and get_triton_output), derived
    only from static defaults: the fixed prompts field, the default sampling and
    length parameter dictionaries, and the blank output record. */
module Schema {
  import opened PyValues
  import opened TensorTypes

  /** A serving tensor descriptor. */
  datatype TensorSpec = TensorSpec(name: string, shape: Shape, dtype: Dtype, optional: bool)

  /** `_INPUT_PARAMETER_FIELDS`: name -> (dimension, dtype, optional). */
  const INPUT_PARAMETER_FIELDS: PyDict<(int, Dtype, bool)> := [("prompts", (-1, Bytes, false))]

  /** `_BLANK_OUTPUTTYPE`: one placeholder per output field, used as the output
      schema and as the fill value of a field the model leaves out. */
  const BLANK_OUTPUTTYPE: PyDict<PyValue> := [
    ("sentences", List([Str("")])),
    ("tokens", List([List([Str("")])])),
    ("logprob", List([List([Float(0)])])),
    ("full_logprob", List([List([Float(0)])])),
    ("token_ids", List([List([Int(0)])])),
    ("offsets", List([List([Int(0)])]))
  ]

  /** The element type each output field is documented to carry: text for
      `sentences` and `tokens`, floats for the two log-probability fields and
      integers for `token_ids` and `offsets`. */
  function DeclaredOutputDtype(field: string): Option<Dtype>
  {
    if field == "sentences" || field == "tokens" then Some(Bytes)
    else if field == "logprob" || field == "full_logprob" then Some(Single)
    else if field == "token_ids" || field == "offsets" then Some(NpInt)
    else None
  }

  /** The descriptors of the fixed input fields. */
  function FixedInputSpecs(fields: seq<(string, (int, Dtype, bool))>): seq<TensorSpec>
  {
    seq(|fields|, i requires 0 <= i < |fields| =>
      TensorSpec(fields[i].0, [fields[i].1.0], fields[i].1.1, fields[i].1.2))
  }

  /** One optional descriptor per default parameter, in dictionary order; the
      first value whose dtype cannot be derived raises. */
  function ParameterSpecs(defaults: seq<(string, PyValue)>): (r: Result<seq<TensorSpec>>)
    ensures r.Success? <==> forall i | 0 <= i < |defaults| :: Describable(defaults[i].1)
    ensures r.Success? ==> |r.value| == |defaults|
    ensures r.Success? ==> forall i | 0 <= i < |defaults| ::
      && r.value[i].name == defaults[i].0
      && r.value[i].optional
      && r.value[i].shape == GetTensorShape(defaults[i].1)
      && Success(r.value[i].dtype) == GetNumpyDtype(defaults[i].1)
    ensures r.Failure? ==> exists i | 0 <= i < |defaults| ::
      && (forall j | 0 <= j < i :: Describable(defaults[j].1))
      && GetNumpyDtype(defaults[i].1) == Failure(r.error)
  {
    if defaults == [] then Success([])
    else
      var dtype :- GetNumpyDtype(defaults[0].1);
      var rest :- ParameterSpecs(defaults[1..]);
      Success([TensorSpec(defaults[0].0, GetTensorShape(defaults[0].1), dtype, true)] + rest)
  }

  /** `get_triton_input`: the prompts descriptor, then the sampling parameters,
      then the length parameters. */
  function GetTritonInput(samplingDefaults: PyDict<PyValue>, lengthDefaults: PyDict<PyValue>): Result<seq<TensorSpec>>
  {
    var inputParameters := FixedInputSpecs(INPUT_PARAMETER_FIELDS);
    var samplingParameters :- ParameterSpecs(samplingDefaults);
    var lengthParameters :- ParameterSpecs(lengthDefaults);
    Success(inputParameters + samplingParameters + lengthParameters)
  }

  /** The input schema is derivable exactly when every default value is
      describable; it is then the required prompts descriptor followed by one
      optional descriptor per sampling key and one per length key, each shaped
      and typed by its default value. */
  lemma InputSchema(samplingDefaults: PyDict<PyValue>, lengthDefaults: PyDict<PyValue>)
    ensures GetTritonInput(samplingDefaults, lengthDefaults).Success? <==>
      && (forall i | 0 <= i < |samplingDefaults| :: Describable(samplingDefaults[i].1))
      && (forall i | 0 <= i < |lengthDefaults| :: Describable(lengthDefaults[i].1))
    ensures GetTritonInput(samplingDefaults, lengthDefaults).Success? ==>
      var specs := GetTritonInput(samplingDefaults, lengthDefaults).value;
      && |specs| == 1 + |samplingDefaults| + |lengthDefaults|
      && specs[0] == TensorSpec("prompts", [-1], Bytes, false)
      && (forall i | 0 <= i < |samplingDefaults| ::
            DescribesDefault(specs[1 + i], samplingDefaults[i]))
      && (forall i | 0 <= i < |lengthDefaults| ::
            DescribesDefault(specs[1 + |samplingDefaults| + i], lengthDefaults[i]))
  {
    var s := ParameterSpecs(samplingDefaults);
    var l := ParameterSpecs(lengthDefaults);
    if s.Success? && l.Success? {
      var specs := GetTritonInput(samplingDefaults, lengthDefaults).value;
      assert specs == [TensorSpec("prompts", [-1], Bytes, false)] + s.value + l.value;
      forall i | 0 <= i < |samplingDefaults|
        ensures DescribesDefault(specs[1 + i], samplingDefaults[i])
      {
        assert specs[1 + i] == s.value[i];
      }
      forall i | 0 <= i < |lengthDefaults|
        ensures DescribesDefault(specs[1 + |samplingDefaults| + i], lengthDefaults[i])
      {
        assert specs[1 + |samplingDefaults| + i] == l.value[i];
      }
    }
  }

  /** `spec` is the optional descriptor of the default parameter `item`. */
  predicate DescribesDefault(spec: TensorSpec, item: (string, PyValue))
  {
    && spec.name == item.0
    && spec.optional
    && spec.shape == GetTensorShape(item.1)
    && Success(spec.dtype) == GetNumpyDtype(item.1)
  }

  /** The dtype of an output field: that of its placeholder's first item. */
  function PlaceholderDtype(placeholder: PyValue): Result<Dtype>
  {
    var first :- Subscript0(placeholder);
    GetNumpyDtype(first)
  }

  /** One required descriptor per field of an output record, shaped by the
      whole placeholder and typed by its first item. */
  function OutputSpecs(record: seq<(string, PyValue)>): (r: Result<seq<TensorSpec>>)
    ensures r.Success? <==> forall i | 0 <= i < |record| :: PlaceholderDtype(record[i].1).Success?
    ensures r.Success? ==> |r.value| == |record|
    ensures r.Success? ==> forall i | 0 <= i < |record| ::
      && r.value[i].name == record[i].0
      && !r.value[i].optional
      && r.value[i].shape == GetTensorShape(record[i].1)
      && Success(r.value[i].dtype) == PlaceholderDtype(record[i].1)
  {
    if record == [] then Success([])
    else
      var dtype :- PlaceholderDtype(record[0].1);
      var rest :- OutputSpecs(record[1..]);
      Success([TensorSpec(record[0].0, GetTensorShape(record[0].1), dtype, false)] + rest)
  }

  /** `get_triton_output`. */
  function GetTritonOutput(): Result<seq<TensorSpec>>
  {
    OutputSpecs(BLANK_OUTPUTTYPE)
  }

  /** Six required variable-length descriptors, one per blank output field in
      order, typed as each field is documented. */
  lemma OutputSchema()
    ensures GetTritonOutput().Success?
    ensures var specs := GetTritonOutput().value;
      && |specs| == |BLANK_OUTPUTTYPE| == 6
      && forall i | 0 <= i < 6 ::
           && specs[i].name == BLANK_OUTPUTTYPE[i].0
           && specs[i].shape == [-1]
           && !specs[i].optional
           && Some(specs[i].dtype) == DeclaredOutputDtype(specs[i].name)
  {
    forall i | 0 <= i < |BLANK_OUTPUTTYPE|
      ensures PlaceholderDtype(BLANK_OUTPUTTYPE[i].1).Success?
    {
      OutputFieldDtype(i);
    }
    var specs := GetTritonOutput().value;
    forall i | 0 <= i < 6
      ensures specs[i].shape == [-1]
      ensures Some(specs[i].dtype) == DeclaredOutputDtype(specs[i].name)
    {
      OutputFieldDtype(i);
    }
  }

  /** Each blank output field's placeholder gives the field its documented dtype. */
  lemma OutputFieldDtype(i: nat)
    requires i < |BLANK_OUTPUTTYPE|
    ensures BLANK_OUTPUTTYPE[i].1.List?
    ensures DeclaredOutputDtype(BLANK_OUTPUTTYPE[i].0).Some?
    ensures PlaceholderDtype(BLANK_OUTPUTTYPE[i].1) == Success(DeclaredOutputDtype(BLANK_OUTPUTTYPE[i].0).value)
  {
    var v := BLANK_OUTPUTTYPE[i].1;
    assert v.List? && |v.items| > 0;
    var first := v.items[0];
    if i == 0 {
      assert first == Str("");
    } else {
      assert first.List? && |first.items| > 0 && !first.items[0].List?;
    }
  }
}
