/** The batched inference entry point (megatrongpt_deployable.py,
    triton_infer_fn): decode the prompts, extract the sampling and length
    parameters, call the model's `generate`, and turn each field of its result
    into an output tensor, filling the fields the model left as None. */
module Inference {
  import opened PyValues
  import opened TensorTypes
  import opened Schema
  import opened Extraction

  /** A torch tensor's element type; only bfloat16 is treated specially. */
  datatype TorchDtype = BFloat16 | OtherTorchDtype(name: string)

  /** One entry of a generated field: a plain Python value or a torch tensor. */
  datatype Element = Py(v: PyValue) | Torch(dtype: TorchDtype, data: seq<PyValue>)

  /** The result of `generate`: a dict from field name to a list of entries, or None. */
  type ModelOutput = PyDict<Option<seq<Element>>>

  /** An output tensor, recorded by the call that builds it:
      `np.full(np.shape(shapeOf), fill, dtype)`, `cast_output(value, dtype)`,
      `np.array([t.cpu().float().numpy() for t in tensors])`,
      `np.array([cast_output(e, dtype) for e in entries])` or `np.array(value)`. */
  datatype TritonArray =
    | Filled(shapeOf: Option<seq<Element>>, fill: PyValue, dtype: Dtype)
    | Cast(value: seq<Element>, dtype: Dtype)
    | Upcast(tensors: seq<Element>)
    | CastEach(entries: seq<Element>, dtype: Dtype)
    | AsArray(value: seq<Element>)

  /** The output tensor of one field of the model's result. The field's dtype
      comes from its placeholder; a None field is filled with the placeholder's
      first item in the shape of `sentences`; otherwise text fields are cast to
      bytes, tensor entries are upcast (bfloat16) or cast to the field's dtype,
      and anything else is passed through. */
  function ConvertField(modelOutput: ModelOutput, field: string, value: Option<seq<Element>>): Result<TritonArray>
  {
    var blank :- Get(BLANK_OUTPUTTYPE, field);
    var placeholder :- Subscript0(blank);
    var fieldDtype :- GetNumpyDtype(placeholder);
    if value.None? then
      var sentences :- Get(modelOutput, "sentences");
      Success(Filled(sentences, placeholder, fieldDtype))
    else if fieldDtype == Bytes then
      Success(Cast(value.value, fieldDtype))
    else if |value.value| == 0 then
      Failure(IndexError)
    else if value.value[0].Torch? then
      if value.value[0].dtype == BFloat16 then Success(Upcast(value.value))
      else Success(CastEach(value.value, fieldDtype))
    else
      Success(AsArray(value.value))
  }

  /** A field name outside the blank output record raises KeyError at the
      dtype lookup, whatever its value (None included). */
  lemma UnknownFieldFails(modelOutput: ModelOutput, field: string, value: Option<seq<Element>>)
    requires field !in KeySet(BLANK_OUTPUTTYPE)
    ensures ConvertField(modelOutput, field, value) == Failure(KeyError(field))
  {
  }

  /** The placeholder and dtype of a known output field. */
  lemma KnownField(field: string) returns (i: nat)
    requires field in KeySet(BLANK_OUTPUTTYPE)
    ensures i < |BLANK_OUTPUTTYPE| && BLANK_OUTPUTTYPE[i].0 == field
    ensures Get(BLANK_OUTPUTTYPE, field) == Success(BLANK_OUTPUTTYPE[i].1)
    ensures DeclaredOutputDtype(field).Some?
    ensures Subscript0(BLANK_OUTPUTTYPE[i].1).Success?
    ensures GetNumpyDtype(Subscript0(BLANK_OUTPUTTYPE[i].1).value) == Success(DeclaredOutputDtype(field).value)
  {
    i :| 0 <= i < |BLANK_OUTPUTTYPE| && BLANK_OUTPUTTYPE[i].0 == field;
    FindAt(BLANK_OUTPUTTYPE, i);
    OutputFieldDtype(i);
  }

  /** A known field the model returned as None becomes its placeholder's first
      item, in the shape of the `sentences` result and with the field's
      documented dtype; without a `sentences` field this raises KeyError. */
  lemma NoneFieldIsFilled(modelOutput: ModelOutput, field: string)
    requires field in KeySet(BLANK_OUTPUTTYPE)
    ensures "sentences" !in KeySet(modelOutput) ==>
      ConvertField(modelOutput, field, None) == Failure(KeyError("sentences"))
    ensures "sentences" in KeySet(modelOutput) ==>
      ConvertField(modelOutput, field, None) ==
        Success(Filled(Get(modelOutput, "sentences").value,
                       Get(BLANK_OUTPUTTYPE, field).value.items[0],
                       DeclaredOutputDtype(field).value))
  {
    var i := KnownField(field);
  }

  /** For a known field with a value, exactly one conversion applies, in a
      fixed priority: text fields are always cast to bytes; for numeric fields
      an empty list raises IndexError, a bfloat16 tensor first entry selects
      the upcast, another tensor first entry the cast to the field's dtype,
      and any other first entry the pass-through. */
  lemma BranchPriority(modelOutput: ModelOutput, field: string, entries: seq<Element>)
    requires field in KeySet(BLANK_OUTPUTTYPE)
    ensures var r := ConvertField(modelOutput, field, Some(entries));
      && (DeclaredOutputDtype(field) == Some(Bytes) ==> r == Success(Cast(entries, Bytes)))
      && (DeclaredOutputDtype(field) != Some(Bytes) ==>
            && (|entries| == 0 ==> r == Failure(IndexError))
            && (|entries| > 0 && entries[0].Torch? && entries[0].dtype == BFloat16 ==>
                  r == Success(Upcast(entries)))
            && (|entries| > 0 && entries[0].Torch? && entries[0].dtype != BFloat16 ==>
                  r == Success(CastEach(entries, DeclaredOutputDtype(field).value)))
            && (|entries| > 0 && entries[0].Py? ==> r == Success(AsArray(entries))))
  {
    var i := KnownField(field);
  }

  /** `ConvertField` for the fields of one model result, as a function value. */
  function FieldConverter(modelOutput: ModelOutput): (string, Option<seq<Element>>) -> Result<TritonArray>
  {
    (field, value) => ConvertField(modelOutput, field, value)
  }

  /** The output dict built from the first items of the model's result, in
      order; the first field that cannot be converted raises. */
  function MarshalItems(modelOutput: ModelOutput, items: seq<(string, Option<seq<Element>>)>): Result<map<string, TritonArray>>
  {
    Collect(items, FieldConverter(modelOutput))
  }

  /** The output holds exactly the fields of the model's result, each converted
      on its own, and it is produced exactly when every field converts. */
  lemma MarshalledOutput(modelOutput: ModelOutput, items: seq<(string, Option<seq<Element>>)>)
    requires DistinctKeys(items)
    ensures MarshalItems(modelOutput, items).Success? <==>
      forall j | 0 <= j < |items| :: ConvertField(modelOutput, items[j].0, items[j].1).Success?
    ensures MarshalItems(modelOutput, items).Success? ==>
      var out := MarshalItems(modelOutput, items).value;
      && out.Keys == KeySet(items)
      && forall j | 0 <= j < |items| :: out[items[j].0] == ConvertField(modelOutput, items[j].0, items[j].1).value
  {
    var convert := FieldConverter(modelOutput);
    CollectSucceeds(items, convert);
    if MarshalItems(modelOutput, items).Success? {
      CollectKeys(items, convert);
      forall j | 0 <= j < |items|
        ensures MarshalItems(modelOutput, items).value[items[j].0] == ConvertField(modelOutput, items[j].0, items[j].1).value
      {
        CollectValues(items, convert, j);
      }
    }
  }

  /** When marshalling raises, the exception is the one of the first field
      that cannot be converted. */
  lemma MarshalledFailure(modelOutput: ModelOutput, items: seq<(string, Option<seq<Element>>)>)
    requires MarshalItems(modelOutput, items).Failure?
    ensures exists j | 0 <= j < |items| ::
      && (forall k | 0 <= k < j :: ConvertField(modelOutput, items[k].0, items[k].1).Success?)
      && ConvertField(modelOutput, items[j].0, items[j].1) == Failure(MarshalItems(modelOutput, items).error)
  {
    var j := CollectFailure(items, FieldConverter(modelOutput));
  }

  /** The output has exactly the key set of the model's result: fields the
      model left out are not added, and an unknown field makes the call raise;
      so all six declared outputs are present exactly when the model returned
      all six (as values or None). */
  lemma OutputKeys(modelOutput: ModelOutput)
    ensures MarshalItems(modelOutput, modelOutput).Success? ==>
      && MarshalItems(modelOutput, modelOutput).value.Keys == KeySet(modelOutput)
      && KeySet(modelOutput) <= KeySet(BLANK_OUTPUTTYPE)
      && (MarshalItems(modelOutput, modelOutput).value.Keys == KeySet(BLANK_OUTPUTTYPE) <==>
            KeySet(BLANK_OUTPUTTYPE) <= KeySet(modelOutput))
  {
    MarshalledOutput(modelOutput, modelOutput);
    if MarshalItems(modelOutput, modelOutput).Success? {
      forall field | field in KeySet(modelOutput)
        ensures field in KeySet(BLANK_OUTPUTTYPE)
      {
        var j :| 0 <= j < |modelOutput| && modelOutput[j].0 == field;
        assert ConvertField(modelOutput, field, modelOutput[j].1).Success?;
      }
    }
  }

  /** The output-marshalling loop of `triton_infer_fn`: fill a fresh output
      dict field by field in the order of the model's result. */
  method MarshalModelOutput(modelOutput: ModelOutput) returns (r: Result<map<string, TritonArray>>)
    ensures r == MarshalItems(modelOutput, modelOutput)
  {
    var tritonOutput: map<string, TritonArray> := map[];
    var i := 0;
    while i < |modelOutput|
      invariant 0 <= i <= |modelOutput|
      invariant MarshalItems(modelOutput, modelOutput[..i]) == Success(tritonOutput)
    {
      var (field, value) := modelOutput[i];
      assert modelOutput[..i + 1][..i] == modelOutput[..i];
      var converted := ConvertField(modelOutput, field, value);
      if converted.Failure? {
        CollectPrefixFailure(modelOutput, FieldConverter(modelOutput), i + 1);
        return Failure(converted.error);
      }
      tritonOutput := tritonOutput[field := converted.value];
      i := i + 1;
    }
    assert modelOutput[..i] == modelOutput;
    return Success(tritonOutput);
  }

  /** The model's `generate`: prompts, length parameters and sampling
      parameters to a structured result. */
  type Generator = (seq<string>, PyDict<PyValue>, PyDict<PyValue>) -> ModelOutput

  /** Both extractions see the same request without `prompts`: a key shared by
      the sampling and length defaults receives the same supplied value in
      both, and a default named `prompts` always keeps its default. */
  lemma ExtractionsIndependent(samplingDefaults: PyDict<PyValue>, lengthDefaults: PyDict<PyValue>, inputs: map<string, Batch>)
    requires Overridden(samplingDefaults, inputs - {"prompts"}).Success?
    requires Overridden(lengthDefaults, inputs - {"prompts"}).Success?
    ensures var sampling := Overridden(samplingDefaults, inputs - {"prompts"}).value;
      var length := Overridden(lengthDefaults, inputs - {"prompts"}).value;
      && (forall i, j | 0 <= i < |samplingDefaults| && 0 <= j < |lengthDefaults| ::
            samplingDefaults[i].0 == lengthDefaults[j].0 && samplingDefaults[i].0 in inputs - {"prompts"} ==>
              sampling[i].1 == length[j].1)
      && (forall i | 0 <= i < |samplingDefaults| && samplingDefaults[i].0 == "prompts" ::
            sampling[i].1 == samplingDefaults[i].1)
      && (forall j | 0 <= j < |lengthDefaults| && lengthDefaults[j].0 == "prompts" ::
            length[j].1 == lengthDefaults[j].1)
  {
    OverriddenFrame(samplingDefaults, inputs - {"prompts"});
    OverriddenFrame(lengthDefaults, inputs - {"prompts"});
  }

  /** The deployable: it holds the model restored from the checkpoint, or no
      model when the checkpoint path did not exist. */
  class MegatronGPTDeployable {
    const nemoCheckpointFilepath: string
    const model: Option<Generator>

    /** Loading: the existence of the checkpoint path and the restored model's
        `generate` are given, since restoring is done by the training runtime. */
    constructor (nemoCheckpointFilepath: string, checkpointExists: bool, restored: Generator)
      ensures this.nemoCheckpointFilepath == nemoCheckpointFilepath
      ensures model == if checkpointExists then Some(restored) else None
    {
      this.nemoCheckpointFilepath := nemoCheckpointFilepath;
      model := if checkpointExists then Some(restored) else None;
    }

    /** `triton_infer_fn`: a request without `prompts` raises KeyError; each
        extraction gets the request without `prompts`; an extraction failure
        escapes; a deployable without a model raises AttributeError; otherwise
        the output is the model's result marshalled field by field. */
    method TritonInferFn(inputs: map<string, Batch>, samplingDefaults: PyDict<PyValue>,
                         lengthDefaults: PyDict<PyValue>, strNdarray2List: Batch -> seq<string>)
      returns (r: Result<map<string, TritonArray>>)
      ensures "prompts" !in inputs ==> r == Failure(KeyError("prompts"))
      ensures "prompts" in inputs ==>
        var sampling := Overridden(samplingDefaults, inputs - {"prompts"});
        var length := Overridden(lengthDefaults, inputs - {"prompts"});
        if sampling.Failure? then r == Failure(sampling.error)
        else if length.Failure? then r == Failure(length.error)
        else if model.None? then r == Failure(AttributeError("model"))
        else
          var modelOutput := model.value(strNdarray2List(inputs["prompts"]), length.value, sampling.value);
          r == MarshalItems(modelOutput, modelOutput)
    {
      if "prompts" !in inputs {
        return Failure(KeyError("prompts"));
      }
      var inputStrings := strNdarray2List(inputs["prompts"]);
      var rest := inputs - {"prompts"};
      var samplingParams := ParamsFromTritonInputs(samplingDefaults, rest);
      if samplingParams.Failure? {
        return Failure(samplingParams.error);
      }
      var lengthParams := ParamsFromTritonInputs(lengthDefaults, rest);
      if lengthParams.Failure? {
        return Failure(lengthParams.error);
      }
      if model.None? {
        return Failure(AttributeError("model"));
      }
      var modelOutput := model.value(inputStrings, lengthParams.value, samplingParams.value);
      r := MarshalModelOutput(modelOutput);
    }
  }
}
