/** The Python side of the serving adapter: the values that appear in the
    default parameter dictionaries, in the output placeholder record and in
    request tensors; the `type()` tags the adapter dispatches on; the
    exceptions it can raise; and insertion-ordered dictionaries. */
module PyValues {

  /** A Python value. Floats are never computed on, so a float is kept as its
      IEEE 754 binary64 bit pattern. `Other` is any object of another type
      (None, a tuple, a dict, a subclass of a builtin, ...). */
  datatype PyValue =
    | Str(s: string)
    | Bool(b: bool)
    | Float(bits: bv64)
    | Int(i: int)
    | List(items: seq<PyValue>)
    | Other(typeName: string)

  /** The result of `type(v)`, as far as the adapter tells types apart. */
  datatype PyType = StrType | BoolType | FloatType | IntType | ListType | OtherType(name: string)

  function TypeOf(v: PyValue): PyType
  {
    match v
    case Str(_) => StrType
    case Bool(_) => BoolType
    case Float(_) => FloatType
    case Int(_) => IntType
    case List(_) => ListType
    case Other(name) => OtherType(name)
  }

  function TypeName(t: PyType): string
  {
    match t
    case StrType => "str"
    case BoolType => "bool"
    case FloatType => "float"
    case IntType => "int"
    case ListType => "list"
    case OtherType(name) => name
  }

  /** The exceptions the adapter lets escape. */
  datatype Error =
    | KeyError(key: string)
    | IndexError
    | TypeError(typeName: string)
    | AttributeError(attribute: string)

  /** Either the value a Python expression evaluates to, or the exception it raises. */
  datatype Result<+T> = Success(value: T) | Failure(error: Error) {
    predicate IsFailure() { Failure? }

    function PropagateFailure<U>(): Result<U>
      requires Failure?
    {
      Failure(error)
    }

    function Extract(): T
      requires Success?
    {
      value
    }
  }

  /** A value or Python's None. */
  datatype Option<+T> = None | Some(value: T)

  /** Keys of an association list are pairwise distinct. */
  predicate DistinctKeys<V>(d: seq<(string, V)>)
  {
    forall i, j | 0 <= i < j < |d| :: d[i].0 != d[j].0
  }

  /** A Python dict with string keys: its items in insertion order. */
  type PyDict<V> = d: seq<(string, V)> | DistinctKeys(d) witness []

  function KeySet<V>(d: seq<(string, V)>): set<string>
  {
    set i | 0 <= i < |d| :: d[i].0
  }

  /** The position of `key` among the keys of `d`, if it is one of them. */
  function Find<V>(d: seq<(string, V)>, key: string): (r: Option<nat>)
    ensures r.Some? <==> key in KeySet(d)
    ensures r.Some? ==> r.value < |d| && d[r.value].0 == key
  {
    if d == [] then None
    else if d[0].0 == key then Some(0)
    else
      var r := Find(d[1..], key);
      assert key in KeySet(d[1..]) <==> key in KeySet(d) by {
        if key in KeySet(d) {
          var i :| 0 <= i < |d| && d[i].0 == key;
          assert d[1..][i - 1].0 == key;
        }
      }
      if r.Some? then Some(r.value + 1) else None
  }

  /** `d[key]`: the value stored under `key`, or KeyError. */
  function Get<V>(d: seq<(string, V)>, key: string): Result<V>
  {
    match Find(d, key)
    case Some(i) => Success(d[i].1)
    case None => Failure(KeyError(key))
  }

  /** In a dict, looking up the key of the i-th item finds that item. */
  lemma FindAt<V>(d: PyDict<V>, i: nat)
    requires i < |d|
    ensures Find(d, d[i].0) == Some(i)
  {
    assert d[i].0 in KeySet(d);
  }

  /** The dict as a map from key to value (a later item wins, as when a dict
      is built from items). */
  function DictToMap<V>(d: seq<(string, V)>): map<string, V>
    decreases |d|
  {
    if d == [] then map[] else DictToMap(d[..|d| - 1])[d[|d| - 1].0 := d[|d| - 1].1]
  }

  /** The map of an item list has exactly the list's keys. */
  lemma {:induction false} DictToMapKeys<V>(d: seq<(string, V)>)
    ensures DictToMap(d).Keys == KeySet(d)
    decreases |d|
  {
    if d != [] {
      var n := |d| - 1;
      DictToMapKeys(d[..n]);
      assert KeySet(d) == KeySet(d[..n]) + {d[n].0};
    }
  }

  /** A dict's map has the dict's keys, and each key maps to its item's value. */
  lemma {:induction false} DictToMapAt<V>(d: PyDict<V>, i: nat)
    requires i < |d|
    ensures DictToMap(d).Keys == KeySet(d)
    ensures DictToMap(d)[d[i].0] == d[i].1
    decreases |d|
  {
    var n := |d| - 1;
    var prefix: PyDict<V> := d[..n];
    assert KeySet(d) == KeySet(prefix) + {d[n].0};
    if i < n {
      DictToMapAt(prefix, i);
      assert d[i].0 != d[n].0;
    } else if n > 0 {
      DictToMapAt(prefix, 0);
    }
  }

  /** A dict built by converting the items of another in order, as a loop
      that stores each converted value under its key; the first conversion
      that raises ends it with that exception. */
  function Collect<X, Y>(items: seq<(string, X)>, convert: (string, X) -> Result<Y>): Result<map<string, Y>>
    decreases |items|
  {
    if items == [] then Success(map[])
    else
      var n := |items| - 1;
      var init :- Collect(items[..n], convert);
      var converted :- convert(items[n].0, items[n].1);
      Success(init[items[n].0 := converted])
  }

  /** Collecting succeeds exactly when every item converts. */
  lemma {:induction false} CollectSucceeds<X, Y>(items: seq<(string, X)>, convert: (string, X) -> Result<Y>)
    ensures Collect(items, convert).Success? <==> forall j | 0 <= j < |items| :: convert(items[j].0, items[j].1).Success?
    decreases |items|
  {
    if items != [] {
      var n := |items| - 1;
      CollectSucceeds(items[..n], convert);
      assert forall j | 0 <= j < n :: items[..n][j] == items[j];
    }
  }

  /** The collected dict has exactly the keys of the items. */
  lemma {:induction false} CollectKeys<X, Y>(items: seq<(string, X)>, convert: (string, X) -> Result<Y>)
    requires Collect(items, convert).Success?
    ensures Collect(items, convert).value.Keys == KeySet(items)
    decreases |items|
  {
    if items != [] {
      var n := |items| - 1;
      CollectKeys(items[..n], convert);
      assert KeySet(items) == KeySet(items[..n]) + {items[n].0};
    }
  }

  /** With distinct keys, each key holds its own item's converted value. */
  lemma {:induction false} CollectValues<X, Y>(items: seq<(string, X)>, convert: (string, X) -> Result<Y>, j: nat)
    requires DistinctKeys(items)
    requires Collect(items, convert).Success?
    requires j < |items|
    ensures items[j].0 in Collect(items, convert).value
    ensures convert(items[j].0, items[j].1).Success?
    ensures Collect(items, convert).value[items[j].0] == convert(items[j].0, items[j].1).value
    decreases |items|
  {
    var n := |items| - 1;
    if j < n {
      var prefix := items[..n];
      assert prefix[j] == items[j];
      assert items[j].0 != items[n].0;
      CollectValues(prefix, convert, j);
    }
  }

  /** When collecting raises, the exception is that of the first item that
      does not convert. */
  lemma {:induction false} CollectFailure<X, Y>(items: seq<(string, X)>, convert: (string, X) -> Result<Y>) returns (j: nat)
    requires Collect(items, convert).Failure?
    ensures j < |items|
    ensures forall k | 0 <= k < j :: convert(items[k].0, items[k].1).Success?
    ensures convert(items[j].0, items[j].1) == Failure(Collect(items, convert).error)
    decreases |items|
  {
    var n := |items| - 1;
    var prefix := items[..n];
    assert forall k | 0 <= k < n :: prefix[k] == items[k];
    if Collect(prefix, convert).Failure? {
      j := CollectFailure(prefix, convert);
    } else {
      CollectSucceeds(prefix, convert);
      j := n;
    }
  }

  /** Once a prefix fails to collect, the whole collection fails the same way. */
  lemma {:induction false} CollectPrefixFailure<X, Y>(items: seq<(string, X)>, convert: (string, X) -> Result<Y>, k: nat)
    requires k <= |items|
    requires Collect(items[..k], convert).Failure?
    ensures Collect(items, convert) == Collect(items[..k], convert)
    decreases |items| - k
  {
    if k < |items| {
      var n := |items| - 1;
      if k == n {
        assert items[..k] == items[..n];
      } else {
        assert items[..n][..k] == items[..k];
        CollectPrefixFailure(items[..n], convert, k);
      }
    } else {
      assert items[..k] == items;
    }
  }

  /** `v[0]`: the first item of a list, the first character of a string,
      IndexError when it is empty and TypeError for any other value; an
      `Other` object is taken to be one that cannot be subscripted. */
  function Subscript0(v: PyValue): Result<PyValue>
  {
    match v
    case List(items) => if |items| == 0 then Failure(IndexError) else Success(items[0])
    case Str(s) => if |s| == 0 then Failure(IndexError) else Success(Str([s[0]]))
    case _ => Failure(TypeError(TypeName(TypeOf(v))))
  }
}
