/**
 * JSON-like Python values (what `json.load` and Django JSON fields produce), Python truthiness,
 * `dict.get`, and the `deep_get` helper that both core files define identically.
 */
module PyValues {
  import opened Wrappers

  /** A Python value as decoded from JSON. Dict key order is not modelled. */
  datatype Value =
    | Null
    | Bool(b: bool)
    | Int(i: int)
    | Real(r: real)
    | Str(s: string)
    | List(items: seq<Value>)
    | Dict(fields: map<string, Value>)

  type PyDict = map<string, Value>

  /** Python's `bool(v)`: None, False, zero and empty containers are falsy. */
  predicate Truthy(v: Value) {
    match v
    case Null => false
    case Bool(b) => b
    case Int(i) => i != 0
    case Real(r) => r != 0.0
    case Str(s) => s != ""
    case List(items) => items != []
    case Dict(fields) => fields != map[]
  }

  /** `d.get(k)`: None when the key is absent. */
  function Get(d: PyDict, k: string): Value {
    if k in d then d[k] else Null
  }

  /** `d.get(k, default)`. */
  function GetOr(d: PyDict, k: string, default: Value): Value {
    if k in d then d[k] else default
  }

  /**
   * `deep_get(dictionary, *keys)`: a left fold over the keys that steps into a dict with `.get`
   * and yields None as soon as the current value is not a dict.
   */
  function DeepGet(v: Value, keys: seq<string>): Value
    decreases |keys|
  {
    if keys == [] then v
    else
      var d := DeepGet(v, keys[..|keys| - 1]);
      if d.Dict? then Get(d.fields, keys[|keys| - 1]) else Null
  }

  /** A path lookup is the composition of the lookups of its two halves. */
  lemma {:induction false} DeepGetAppend(v: Value, ks1: seq<string>, ks2: seq<string>)
    ensures DeepGet(v, ks1 + ks2) == DeepGet(DeepGet(v, ks1), ks2)
    decreases |ks2|
  {
    if ks2 == [] {
      assert ks1 + ks2 == ks1;
    } else {
      var n := |ks2|;
      assert (ks1 + ks2)[..|ks1 + ks2| - 1] == ks1 + ks2[..n - 1];
      assert (ks1 + ks2)[|ks1 + ks2| - 1] == ks2[n - 1];
      DeepGetAppend(v, ks1, ks2[..n - 1]);
    }
  }

  /** Once the walk meets something that is not a dict, every longer path yields None. */
  lemma {:induction false} DeepGetOfNonDict(v: Value, keys: seq<string>)
    requires !v.Dict? && keys != []
    ensures DeepGet(v, keys) == Null
    decreases |keys|
  {
    if |keys| > 1 {
      DeepGetOfNonDict(v, keys[..|keys| - 1]);
    }
  }

  /** A path whose first key is missing (or whose start is not a dict) yields None. */
  lemma DeepGetMissing(v: Value, keys: seq<string>)
    requires keys != [] && !(v.Dict? && keys[0] in v.fields)
    ensures DeepGet(v, keys) == Null
  {
    var first, rest := keys[..1], keys[1..];
    assert keys == first + rest;
    DeepGetAppend(v, first, rest);
    assert first[..0] == [];
    if rest != [] {
      DeepGetOfNonDict(Null, rest);
    }
  }

  /** A non-None result means every step of the path found a dict holding the next key. */
  lemma DeepGetFoundPath(v: Value, keys: seq<string>, i: nat)
    requires i < |keys| && DeepGet(v, keys) != Null
    ensures DeepGet(v, keys[..i]).Dict? && keys[i] in DeepGet(v, keys[..i]).fields
  {
    var pre, post := keys[..i], keys[i..];
    assert keys == pre + post;
    DeepGetAppend(v, pre, post);
    var d := DeepGet(v, pre);
    if !(d.Dict? && post[0] in d.fields) {
      DeepGetMissing(d, post);
      assert false;
    }
  }

  predicate AllDicts(items: seq<Value>) {
    forall i :: 0 <= i < |items| ==> items[i].Dict?
  }

  /**
   * Iterating `v` and calling `.get` on every element, as the comprehensions over JSON lists do:
   * a list of dicts yields those dicts; an empty string or dict iterates nothing; a non-empty
   * string or dict yields characters or keys, and `.get` on those raises AttributeError; None,
   * booleans and numbers are not iterable (TypeError).
   */
  function DictItems(v: Value): (r: Result<seq<PyDict>>)
    ensures r.Success? <==> (v.List? && AllDicts(v.items)) || v == Str("") || v == Dict(map[])
    ensures r.Success? && v.List? ==>
      |r.value| == |v.items| && forall i :: 0 <= i < |v.items| ==> v.items[i] == Dict(r.value[i])
    ensures r.Success? && !v.List? ==> r.value == []
  {
    match v
    case List(items) =>
      if AllDicts(items) then Success(seq(|items|, i requires 0 <= i < |items| => items[i].fields))
      else Failure(AttributeError)
    case Str(s) => if s == "" then Success([]) else Failure(AttributeError)
    case Dict(m) => if m == map[] then Success([]) else Failure(AttributeError)
    case _ => Failure(TypeError)
  }
}
