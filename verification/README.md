# MegatronGPTDeployable serving adapter, modelled in Dafny

This project models the adapter that puts a Megatron GPT checkpoint behind a
tensor-serving runtime (`nemo/deploy/nlp/megatrongpt_deployable.py`). The
adapter has four parts:

- **Shape and dtype derivation.** `GetTensorShape` and `GetNumpyDtype` take an
  example Python value and give a tensor shape and a numpy element type.
- **Schema derivation.** `get_triton_input` and `get_triton_output` build the
  ordered tensor descriptors. The inputs come from the fixed `prompts` field and
  the default sampling and length parameter dictionaries. The outputs come from
  the blank output record `_BLANK_OUTPUTTYPE`.
- **Parameter extraction.** `_sampling_params_from_triton_inputs` and
  `_length_params_from_triton_inputs` start from a fresh copy of the defaults.
  They overwrite each key the request supplies with `tensor[0][0]`, the first
  row's first element, which then applies to the whole batch.
- **Output marshalling.** `triton_infer_fn` loops over the fields returned by
  the model's `generate` and builds one output tensor per field.

Modules, one per part, in dependency order:

- `py_values.dfy` (`PyValues`): Python values, the `type()` tags the adapter
  dispatches on, and the exceptions that can escape (`Result`). It also has
  Python dicts as insertion-ordered item lists with distinct keys (`PyDict`),
  with `d[key]`, `v[0]`, and the map view of a dict. `Collect` is the loop
  shape that builds a dict by converting another's items in order; the output
  marshalling is an instance of it.
- `tensor_types.dfy` (`TensorTypes`): numpy dtypes, shapes, `GetTensorShape`,
  `GetNumpyDtype`.
- `schema.dfy` (`Schema`): the descriptor record, the two class constants, and
  the input and output schemas.
- `extraction.dfy` (`Extraction`): the parameter extraction. `Overridden` is
  its specification function. `ParamsFromTritonInputs` is the loop, proved
  against that function.
- `inference.dfy` (`Inference`): the per-field conversion `ConvertField`, the
  marshalling specification `MarshalItems` and its loop `MarshalModelOutput`,
  and the class `MegatronGPTDeployable` with `TritonInferFn`.

Exceptions are values. `KeyError` comes from a dict or type-table lookup.
`IndexError` comes from `[0]` on an empty list or tensor. `AttributeError("model")`
is what an instance without a loaded model raises. Each operation returns the
exception Python would raise first, in the order the source evaluates things.

Foreign pieces become parameters or free constructors:

- The default-parameter providers are parameters (`samplingDefaults`,
  `lengthDefaults`).
- The model's `generate` and the prompt decoder `str_ndarray2list` are
  function-typed parameters.
- Each numpy or helper call that builds an output tensor is one constructor of
  `TritonArray`. These are `np.full`, `cast_output`, the bfloat16 upcast, the
  per-entry `cast_output`, and `np.array`. The constructor records which call
  was made and with which arguments, and nothing more.

## Model

| member | source | states |
|---|---|---|
| TensorTypes.GetTensorShape | nemo/deploy/nlp/megatrongpt_deployable.py:41-42 | The shape always has one dimension. It is -1 exactly when the value is a list and 1 exactly when it is not. |
| TensorTypes.GetNumpyDtype | nemo/deploy/nlp/megatrongpt_deployable.py:47-56 | str gives bytes, bool gives np.bool_, float gives np.single, int gives np.int_. A list takes the dtype of its first item. An empty list raises IndexError. A nested list or an unmapped type raises KeyError with the type's name. It succeeds exactly on scalars and on non-empty lists whose first item is a scalar. |
| Schema.ParameterSpecs | nemo/deploy/nlp/megatrongpt_deployable.py:109-129 | There is one optional descriptor per default key, in dictionary order. Its name is the key, and its shape and dtype come from the default value. It succeeds exactly when every value is describable. Otherwise the exception is that of the first value that is not. |
| Schema.InputSchema | nemo/deploy/nlp/megatrongpt_deployable.py:100-132 | The input schema can be derived exactly when every sampling and length default is describable. It then has one descriptor more than the sampling and length defaults together. The first is the required variable-length bytes `prompts` descriptor. Each sampling descriptor and then each length descriptor describes its default item. |
| Schema.OutputSpecs | nemo/deploy/nlp/megatrongpt_deployable.py:134-143 | There is one required descriptor per output-record field, in order. Its shape comes from the whole placeholder and its dtype from the placeholder's first item. |
| Schema.OutputSchema | nemo/deploy/nlp/megatrongpt_deployable.py:91-143 | The output schema always derives. It has exactly six required descriptors, one per blank field in order, and every shape is (-1,). sentences and tokens are bytes, logprob and full_logprob are single, token_ids and offsets are int. |
| Schema.OutputFieldDtype | nemo/deploy/nlp/megatrongpt_deployable.py:91-98 | Each blank field's placeholder gives that field its documented element type. |
| Extraction.Overridden | nemo/deploy/nlp/megatrongpt_deployable.py:146-151 | A successful extraction keeps exactly the default keys, in their order. |
| Extraction.OverriddenFrame | nemo/deploy/nlp/megatrongpt_deployable.py:146-159 | Extraction succeeds exactly when every supplied parameter tensor has a first row with a first element; otherwise it raises IndexError. A supplied key gets `tensor[0][0]`. Every other key keeps its default. |
| Extraction.PrefixFailure | nemo/deploy/nlp/megatrongpt_deployable.py:148-150 | Once a parameter fails to extract, the whole extraction raises that exception. |
| Extraction.ExtraInputsIgnored | nemo/deploy/nlp/megatrongpt_deployable.py:148-150 | Request tensors whose names are not default keys do not change the result. |
| Extraction.NoOverridesKeepDefaults | nemo/deploy/nlp/megatrongpt_deployable.py:146-151 | A request that supplies no parameter gets the defaults unchanged. |
| Extraction.OverriddenIsMapOverride | nemo/deploy/nlp/megatrongpt_deployable.py:146-159 | As maps, the extracted dict is the defaults overridden by `tensor[0][0]` of each supplied tensor whose name is a default key. |
| Extraction.ParamsFromTritonInputs | nemo/deploy/nlp/megatrongpt_deployable.py:146-159 | The in-place loop equals the extraction specification, exception included. It pops each key from its own copy of the request. |
| Inference.UnknownFieldFails | nemo/deploy/nlp/megatrongpt_deployable.py:178-179 | A result field outside the blank record raises KeyError at the dtype lookup, even when its value is None. |
| Inference.NoneFieldIsFilled | nemo/deploy/nlp/megatrongpt_deployable.py:179-187 | A known field returned as None becomes its placeholder's first item, with the field's dtype and in the shape of the `sentences` result. When the result has no `sentences` field, this raises KeyError. |
| Inference.BranchPriority | nemo/deploy/nlp/megatrongpt_deployable.py:179-199 | For a non-None value exactly one branch applies, in this order. A bytes field is always cast to bytes. Otherwise an empty list raises IndexError. A bfloat16 tensor as first entry selects the upcast, another tensor the per-entry cast to the field's dtype, and anything else the pass-through. |
| Inference.MarshalledOutput | nemo/deploy/nlp/megatrongpt_deployable.py:176-200 | The output is produced exactly when every field converts. Its key set is that of the model's result, and each key holds that field's own conversion. |
| Inference.MarshalledFailure | nemo/deploy/nlp/megatrongpt_deployable.py:178-199 | When marshalling raises, the exception is that of the first field, in result order, that does not convert. |
| Inference.OutputKeys | nemo/deploy/nlp/megatrongpt_deployable.py:177-200 | A successful output has exactly the model result's keys, and all of them are blank-record fields. All six declared outputs are present exactly when the model returned all six. |
| Inference.MarshalModelOutput | nemo/deploy/nlp/megatrongpt_deployable.py:176-200 | The loop that fills a fresh output dict equals the marshalling specification, exception included. |
| Inference.ExtractionsIndependent | nemo/deploy/nlp/megatrongpt_deployable.py:163-165 | Both extractions see the request without `prompts`. A key shared by both default dicts gets the same supplied value in both. A default named `prompts` keeps its default. |
| Inference.MegatronGPTDeployable.constructor | nemo/deploy/nlp/megatrongpt_deployable.py:60-83 | The instance holds the restored model when the checkpoint path exists and no model when it does not. |
| Inference.MegatronGPTDeployable.TritonInferFn | nemo/deploy/nlp/megatrongpt_deployable.py:161-200 | A request without `prompts` raises KeyError. Sampling and then length extraction run on the rest of the request, and their exceptions escape. An instance without a model raises AttributeError. Otherwise the output is the model's result on the decoded prompts and extracted parameters, marshalled field by field. |

## Left out

- Checkpoint loading (`_load`) is not modelled beyond its observable outcome. That means the Trainer and strategy construction, `restore_from`, the configuration override (transformer engine, tensor-parallel size = device count) and `eval()`. The constructor takes the path's existence and the restored model as parameters. The device and node counts only feed the loading step (the Trainer and the tensor-parallel size override), so they are not parameters.
- The `pytriton` import fallback, `noop_decorator`, `use_pytriton` and the `@batch` wrapper are not modelled. They are import plumbing and the serving runtime's batching.
- The logger, the unused `typedict2tensor` import and the unused local `num_prompts` are left out; none of them affects a result.
- `generate` is not modelled; it is the generation algorithm of the training runtime, a parameter here. `cast_output`, `str_ndarray2list` and the `ITritonDeployable` interface are not part of this model. The encoding round trip of `cast_output` (text to bytes and back) is therefore not stated.
- The bfloat16 conversion `.cpu().float().numpy()` is floating-point and device work. The model records only that the upcast branch was chosen.
- numpy semantics are left out. That covers what `np.shape` returns, `np.full` broadcasting the one-item placeholder list, and `np.array` on ragged lists. A filled field records the value whose shape it takes (the `sentences` result). Nothing checks that all output fields have the same batch length, and neither does the source.
- Exceptions raised inside the foreign calls are not modelled. An example is a later entry of a tensor-led list that is not a tensor.
- The model result's values are lists of entries or None; a field whose value is some other object (a bare tensor, say) is not modelled.
- Extracted parameter values are numpy scalars in the source; the model keeps them as the Python values they hold. As in the source, every supplied parameter is overridden by `tensor[0][0]`, so a list-valued default (declared shape (-1,)) is overridden by one list item, not by a list.
- `Subscript0` treats every `Other` object as one that cannot be subscripted (TypeError); tuples, dicts and subclasses of builtins, which Python does subscript, are not told apart. Only an output record other than `_BLANK_OUTPUTTYPE`, whose placeholders are all lists, can reach that case.
- Concurrency, devices and process groups are external to the adapter.
- The design intent is that every output-schema field appears in every response. The code only converts the fields `generate` returns, and adds none that are missing. The model follows the code. `Inference.OutputKeys` states when all six fields are present.
