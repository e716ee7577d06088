/**
 * JSON values as the script handles them: the decoded API responses and the
 * structures it dumps. Python dicts keep insertion order, so an object is an
 * ordered dictionary: a key sequence plus the map from those keys to values.
 */
module Json {

  datatype Option<T> = None | Some(value: T)

  /** Failures that escape a function of the script as Python exceptions. */
  datatype Exception =
    | ValueError(text: string)   // int() of a string that is not an integer literal
    | IndexError                 // indexing an empty list

  /** The outcome of a call: a value, or the exception it lets escape. */
  datatype Result<T> = Ok(value: T) | Raised(error: Exception) {
    predicate IsFailure() { Raised? }

    function PropagateFailure<U>(): Result<U>
      requires Raised?
    {
      Raised(error)
    }

    function Extract(): T
      requires Ok?
    {
      value
    }
  }

  /** A Python dict with string keys: `keys` in insertion order, `entries` their values. */
  datatype Dict<V> = Dict(keys: seq<string>, entries: map<string, V>) {

    /** Keys are listed once each, and exactly the keys of `entries` are listed. */
    ghost predicate Valid() {
      && NoDuplicates(keys)
      && (forall k :: k in entries <==> k in keys)
    }

    /** `d[k] = v`: an existing key keeps its position, a new key goes last. */
    function Set(k: string, v: V): (d: Dict<V>)
      ensures d.entries == entries[k := v]
      ensures k in entries ==> d.keys == keys
      ensures k !in entries ==> d.keys == keys + [k]
    {
      if k in entries then Dict(keys, entries[k := v]) else Dict(keys + [k], entries[k := v])
    }

    lemma SetValid(k: string, v: V)
      requires Valid()
      ensures Set(k, v).Valid()
    {
      assert (keys + [k])[..|keys|] == keys;
    }
  }

  /** No key is listed twice: each one is new to the keys before it. */
  ghost predicate NoDuplicates(ks: seq<string>) {
    ks == [] || (NoDuplicates(ks[..|ks| - 1]) && ks[|ks| - 1] !in ks[..|ks| - 1])
  }

  lemma {:induction false} NoDuplicatesAt(ks: seq<string>, i: nat)
    requires NoDuplicates(ks) && i < |ks|
    ensures ks[i] !in ks[..i]
    decreases |ks|
  {
    if i < |ks| - 1 {
      NoDuplicatesAt(ks[..|ks| - 1], i);
      assert ks[..|ks| - 1][..i] == ks[..i];
    }
  }

  function EmptyDict<V>(): (d: Dict<V>)
    ensures d.Valid() && d.keys == [] && d.entries == map[]
  {
    Dict([], map[])
  }

  /** `m.get(k, default)` */
  function Get<V>(m: map<string, V>, k: string, default: V): V {
    if k in m then m[k] else default
  }

  datatype Value =
    | Null
    | Bool(b: bool)
    | Int(i: int)
    | Str(s: string)
    | Arr(items: seq<Value>)
    | Obj(fields: Dict<Value>)

  /** `[k for k in d.keys()]` as a JSON list of strings. */
  function KeyList(keys: seq<string>): (v: Value)
    ensures v.Arr? && |v.items| == |keys|
    ensures forall i :: 0 <= i < |keys| ==> v.items[i] == Str(keys[i])
  {
    Arr(seq(|keys|, i requires 0 <= i < |keys| => Str(keys[i])))
  }
}
