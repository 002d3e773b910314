/** Reconstructing the sampling and length parameter dictionaries from a
    request batch (megatrongpt_deployable.py, _sampling_params_from_triton_inputs
    and _length_params_from_triton_inputs): start from a fresh copy of the
    defaults and overwrite each key the batch supplies with the first row's
    first element, which then holds for the whole batch. */
module Extraction {
  import opened PyValues

  /** A request tensor as the serving runtime hands it over: one row per
      request in the batch. */
  type Batch = seq<seq<PyValue>>

  /** `tensor[0][0]`. */
  function FirstElement(b: Batch): Result<PyValue>
  {
    if |b| == 0 || |b[0]| == 0 then Failure(IndexError) else Success(b[0][0])
  }

  /** The value one parameter ends up with. */
  function OverrideValue(key: string, default: PyValue, inputs: map<string, Batch>): Result<PyValue>
  {
    if key in inputs then FirstElement(inputs[key]) else Success(default)
  }

  /** The extracted dictionary, item by item in dictionary order; the first
      supplied tensor that has no first element raises. */
  function Overridden(defaults: seq<(string, PyValue)>, inputs: map<string, Batch>): (r: Result<seq<(string, PyValue)>>)
    ensures r.Success? ==> |r.value| == |defaults| && forall i | 0 <= i < |defaults| :: r.value[i].0 == defaults[i].0
    decreases |defaults|
  {
    if defaults == [] then Success([])
    else
      var n := |defaults| - 1;
      var init :- Overridden(defaults[..n], inputs);
      var value :- OverrideValue(defaults[n].0, defaults[n].1, inputs);
      Success(init + [(defaults[n].0, value)])
  }

  /** The frame property: extraction succeeds exactly when every supplied
      parameter tensor has a first element (it raises IndexError otherwise);
      it then keeps the default keys in order, gives a supplied key the first
      row's first element and leaves every other key at its default. */
  lemma {:induction false} OverriddenFrame(defaults: seq<(string, PyValue)>, inputs: map<string, Batch>)
    ensures Overridden(defaults, inputs).Success? <==>
      forall i | 0 <= i < |defaults| :: defaults[i].0 in inputs ==> FirstElement(inputs[defaults[i].0]).Success?
    ensures Overridden(defaults, inputs).Failure? ==> Overridden(defaults, inputs).error == IndexError
    ensures Overridden(defaults, inputs).Success? ==>
      var params := Overridden(defaults, inputs).value;
      && |params| == |defaults|
      && forall i | 0 <= i < |defaults| ::
           && params[i].0 == defaults[i].0
           && (defaults[i].0 in inputs ==> params[i].1 == inputs[defaults[i].0][0][0])
           && (defaults[i].0 !in inputs ==> params[i].1 == defaults[i].1)
    decreases |defaults|
  {
    if defaults != [] {
      var n := |defaults| - 1;
      OverriddenFrame(defaults[..n], inputs);
      assert forall i | 0 <= i < n :: defaults[..n][i] == defaults[i];
    }
  }

  /** Once a prefix of the defaults fails, the whole extraction fails the same way. */
  lemma {:induction false} PrefixFailure(defaults: seq<(string, PyValue)>, inputs: map<string, Batch>, k: nat)
    requires k <= |defaults|
    requires Overridden(defaults[..k], inputs).Failure?
    ensures Overridden(defaults, inputs) == Overridden(defaults[..k], inputs)
    decreases |defaults| - k
  {
    if k < |defaults| {
      var n := |defaults| - 1;
      if k == n {
        assert defaults[..k] == defaults[..n];
      } else {
        assert defaults[..n][..k] == defaults[..k];
        PrefixFailure(defaults[..n], inputs, k);
      }
    } else {
      assert defaults[..k] == defaults;
    }
  }

  /** Tensors under names that are not default keys make no difference. */
  lemma {:induction false} ExtraInputsIgnored(defaults: seq<(string, PyValue)>, inputs: map<string, Batch>, others: map<string, Batch>)
    requires forall i | 0 <= i < |defaults| :: defaults[i].0 in inputs <==> defaults[i].0 in others
    requires forall i | 0 <= i < |defaults| :: defaults[i].0 in inputs ==> inputs[defaults[i].0] == others[defaults[i].0]
    ensures Overridden(defaults, inputs) == Overridden(defaults, others)
    decreases |defaults|
  {
    if defaults != [] {
      var n := |defaults| - 1;
      ExtraInputsIgnored(defaults[..n], inputs, others);
    }
  }

  /** A batch that supplies none of the parameters gets the defaults unchanged. */
  lemma NoOverridesKeepDefaults(defaults: seq<(string, PyValue)>, inputs: map<string, Batch>)
    requires forall i | 0 <= i < |defaults| :: defaults[i].0 !in inputs
    ensures Overridden(defaults, inputs) == Success(defaults)
  {
    OverriddenFrame(defaults, inputs);
    var params := Overridden(defaults, inputs).value;
    assert forall i | 0 <= i < |defaults| :: params[i] == defaults[i];
    assert params == defaults;
  }

  /** The first element of every supplied tensor whose name is a default key. */
  function Supplied(defaults: seq<(string, PyValue)>, inputs: map<string, Batch>): map<string, PyValue>
    requires forall k | k in inputs && k in KeySet(defaults) :: FirstElement(inputs[k]).Success?
  {
    map k | k in inputs && k in KeySet(defaults) :: FirstElement(inputs[k]).value
  }

  /** Seen as maps, extraction is an override of the defaults by the first
      element of every supplied tensor whose name is a default key. */
  lemma OverriddenIsMapOverride(defaults: PyDict<PyValue>, inputs: map<string, Batch>)
    requires forall k | k in inputs && k in KeySet(defaults) :: FirstElement(inputs[k]).Success?
    ensures Overridden(defaults, inputs).Success?
    ensures DictToMap(Overridden(defaults, inputs).value) == DictToMap(defaults) + Supplied(defaults, inputs)
  {
    var params := OverriddenDict(defaults, inputs);
    var expected := DictToMap(defaults) + Supplied(defaults, inputs);
    MapOverrideKeys(defaults, inputs, params);
    forall k | k in expected
      ensures k in DictToMap(params) && DictToMap(params)[k] == expected[k]
    {
      var i :| 0 <= i < |defaults| && defaults[i].0 == k;
      MapOverrideAt(defaults, inputs, params, i);
    }
  }

  /** The map-override view has the default keys. */
  lemma MapOverrideKeys(defaults: PyDict<PyValue>, inputs: map<string, Batch>, params: PyDict<PyValue>)
    requires forall k | k in inputs && k in KeySet(defaults) :: FirstElement(inputs[k]).Success?
    requires KeySet(params) == KeySet(defaults)
    ensures DictToMap(params).Keys == (DictToMap(defaults) + Supplied(defaults, inputs)).Keys
    ensures forall k | k in DictToMap(defaults) + Supplied(defaults, inputs) ::
      exists i | 0 <= i < |defaults| :: defaults[i].0 == k
  {
    DictToMapKeys(params);
    DictToMapKeys(defaults);
    assert Supplied(defaults, inputs).Keys <= KeySet(defaults);
  }

  /** The map-override view at the key of one default item. */
  lemma MapOverrideAt(defaults: PyDict<PyValue>, inputs: map<string, Batch>, params: PyDict<PyValue>, i: nat)
    requires forall k | k in inputs && k in KeySet(defaults) :: FirstElement(inputs[k]).Success?
    requires Overridden(defaults, inputs) == Success(params)
    requires i < |defaults|
    ensures defaults[i].0 in DictToMap(params) && defaults[i].0 in DictToMap(defaults)
    ensures DictToMap(params)[defaults[i].0] == (DictToMap(defaults) + Supplied(defaults, inputs))[defaults[i].0]
  {
    var k := defaults[i].0;
    var supplied := Supplied(defaults, inputs);
    OverriddenAt(defaults, inputs, i);
    assert params[i].0 == k;
    DictToMapAt(params, i);
    DictToMapAt(defaults, i);
    assert k in KeySet(defaults);
    if k in inputs {
      assert k in supplied && supplied[k] == params[i].1;
      assert (DictToMap(defaults) + supplied)[k] == supplied[k];
    } else {
      assert k !in supplied;
      assert (DictToMap(defaults) + supplied)[k] == DictToMap(defaults)[k];
    }
  }

  /** Under the success condition, the extracted items form a dict with the default keys. */
  lemma OverriddenDict(defaults: PyDict<PyValue>, inputs: map<string, Batch>) returns (params: PyDict<PyValue>)
    requires forall k | k in inputs && k in KeySet(defaults) :: FirstElement(inputs[k]).Success?
    ensures Overridden(defaults, inputs) == Success(params)
    ensures KeySet(params) == KeySet(defaults)
  {
    OverriddenFrame(defaults, inputs);
    assert Overridden(defaults, inputs).Success? by {
      forall i | 0 <= i < |defaults| && defaults[i].0 in inputs
        ensures FirstElement(inputs[defaults[i].0]).Success?
      {
        assert defaults[i].0 in KeySet(defaults);
      }
    }
    params := Overridden(defaults, inputs).value;
    assert forall i | 0 <= i < |params| :: params[i].0 == defaults[i].0;
  }

  /** One item of a successful extraction. */
  lemma OverriddenAt(defaults: seq<(string, PyValue)>, inputs: map<string, Batch>, i: nat)
    requires Overridden(defaults, inputs).Success?
    requires i < |defaults|
    ensures Overridden(defaults, inputs).value[i].0 == defaults[i].0
    ensures defaults[i].0 in inputs ==>
      FirstElement(inputs[defaults[i].0]) == Success(Overridden(defaults, inputs).value[i].1)
    ensures defaults[i].0 !in inputs ==> Overridden(defaults, inputs).value[i].1 == defaults[i].1
  {
    OverriddenFrame(defaults, inputs);
  }

  /** Extending a successful prefix of the extraction by one item. */
  lemma OverriddenStep(defaults: seq<(string, PyValue)>, inputs: map<string, Batch>, i: nat)
    requires i < |defaults|
    requires Overridden(defaults[..i], inputs).Success?
    ensures var value := OverrideValue(defaults[i].0, defaults[i].1, inputs);
      Overridden(defaults[..i + 1], inputs) ==
        if value.Failure? then Failure(value.error)
        else Success(Overridden(defaults[..i], inputs).value + [(defaults[i].0, value.value)])
  {
    assert defaults[..i + 1][..i] == defaults[..i];
  }

  /** Popping the i-th key of a dict from a request that has had the keys
      before it popped leaves the request without the first i + 1 keys. */
  lemma PoppedKeys(defaults: PyDict<PyValue>, inputs: map<string, Batch>, remaining: map<string, Batch>, i: nat)
    requires i < |defaults|
    requires remaining == inputs - KeySet(defaults[..i])
    ensures defaults[i].0 in remaining <==> defaults[i].0 in inputs
    ensures defaults[i].0 in remaining ==> remaining[defaults[i].0] == inputs[defaults[i].0]
    ensures defaults[i].0 in remaining ==> remaining - {defaults[i].0} == inputs - KeySet(defaults[..i + 1])
    ensures defaults[i].0 !in remaining ==> remaining == inputs - KeySet(defaults[..i + 1])
  {
    assert defaults[..i + 1] == defaults[..i] + [defaults[i]];
    assert KeySet(defaults[..i + 1]) == KeySet(defaults[..i]) + {defaults[i].0};
    assert defaults[i].0 !in KeySet(defaults[..i]);
  }

  /** Passing over position i of a list. */
  lemma KeepStep(params: seq<(string, PyValue)>, i: nat)
    requires i < |params|
    ensures params[..i + 1] == params[..i] + [(params[i].0, params[i].1)]
    ensures params[i + 1..] == params[i..][1..]
  {
  }

  /** Storing an item at position i of a list whose tail from i still holds
      the defaults. */
  lemma SetStep(params: seq<(string, PyValue)>, i: nat, value: PyValue)
    requires i < |params|
    ensures var updated := params[i := (params[i].0, value)];
      && updated[..i + 1] == params[..i] + [(params[i].0, value)]
      && updated[i + 1..] == params[i..][1..]
  {
  }

  /** `_sampling_params_from_triton_inputs` and `_length_params_from_triton_inputs`
      (the two are the same code over different defaults): overwrite, in a fresh
      copy of the defaults, every key the request supplies, popping it from the
      method's own copy of the request. */
  method ParamsFromTritonInputs(defaults: PyDict<PyValue>, inputs: map<string, Batch>) returns (r: Result<PyDict<PyValue>>)
    ensures r == Overridden(defaults, inputs)
  {
    var params: seq<(string, PyValue)> := defaults;
    var remaining := inputs;
    var i := 0;
    while i < |params|
      invariant 0 <= i <= |params| == |defaults|
      invariant Overridden(defaults[..i], inputs) == Success(params[..i])
      invariant params[i..] == defaults[i..]
      invariant remaining == inputs - KeySet(defaults[..i])
    {
      var field := params[i].0;
      assert params[i] == defaults[i];
      OverriddenStep(defaults, inputs, i);
      PoppedKeys(defaults, inputs, remaining, i);
      if field in remaining {
        var first := FirstElement(remaining[field]);
        assert first == OverrideValue(field, defaults[i].1, inputs);
        if first.Failure? {
          PrefixFailure(defaults, inputs, i + 1);
          return Failure(first.error);
        }
        SetStep(params, i, first.value);
        params := params[i := (field, first.value)];
        remaining := remaining - {field};
      } else {
        assert OverrideValue(field, defaults[i].1, inputs) == Success(params[i].1);
        KeepStep(params, i);
      }
      i := i + 1;
    }
    assert defaults[..i] == defaults && params[..i] == params;
    return Success(params);
  }
}
