/**
 * The parsed JSON structures the utilities work on: values, insertion-ordered
 * dictionaries with string keys, and the Python exceptions the utilities can
 * raise on them.
 */
module JsonData {

  /** A JSON value as the JSON parser produces it; an object is a dictionary. */
  datatype Value =
    | Null
    | Bool(b: bool)
    | Number(n: int)
    | Str(s: string)
    | Array(items: seq<Value>)
    | Object(fields: Dict<Value>)

  /**
   * A Python dict with string keys: `keys` is the iteration (insertion)
   * order and `vals` the mapping. `Valid` ties the two together.
   */
  datatype Dict<V> = Dict(keys: seq<string>, vals: map<string, V>)

  /** A record: one product's fields. */
  type Record = Dict<Value>

  /** The exceptions the record logic can raise. */
  datatype Fault =
    | KeyError(key: string)         // `d[k]` with `k` not a key of `d`
    | AttributeError(name: string)  // a method called on a value that has none of that name
    | StopIteration                 // `next(iter(d))` on an empty dict

  /** Either a result or the exception that aborted the computation. */
  datatype Result<T> = Ok(value: T) | Err(error: Fault)

  predicate NoDup<T(==)>(s: seq<T>) {
    forall i, j :: 0 <= i < j < |s| ==> s[i] != s[j]
  }

  /** The keys are listed once each, and they are exactly the mapped keys. */
  ghost predicate Valid<V>(d: Dict<V>) {
    NoDup(d.keys) && forall k :: k in d.vals <==> k in d.keys
  }

  /** `{}` */
  function Empty<V>(): (r: Dict<V>)
    ensures Valid(r) && r.keys == []
  {
    Dict([], map[])
  }

  /**
   * `d[k] = v`: an existing key keeps its place in the iteration order and
   * gets the new value; a new key is appended at the end.
   */
  function Set<V>(d: Dict<V>, k: string, v: V): (r: Dict<V>)
    requires Valid(d)
    ensures Valid(r)
    ensures r.vals == d.vals[k := v]
    ensures r.keys == if k in d.vals then d.keys else d.keys + [k]
  {
    if k in d.vals then Dict(d.keys, d.vals[k := v])
    else Dict(d.keys + [k], d.vals[k := v])
  }

  /** The dictionary built by inserting the first `n` items of `d` in order. */
  function Prefix<V>(d: Dict<V>, n: nat): (r: Dict<V>)
    requires Valid(d) && n <= |d.keys|
    ensures Valid(r)
  {
    Dict(d.keys[..n], map k | k in d.keys[..n] :: d.vals[k])
  }

  /** Inserting the next item of `d` extends the prefix by one. */
  lemma PrefixStep<V>(d: Dict<V>, n: nat)
    requires Valid(d) && n < |d.keys|
    ensures Set(Prefix(d, n), d.keys[n], d.vals[d.keys[n]]) == Prefix(d, n + 1)
  {
    var k := d.keys[n];
    assert d.keys[..n + 1] == d.keys[..n] + [k];
    assert k !in d.keys[..n];
  }

  /** Inserting every item of `d` in order rebuilds `d`: a copy of `d`. */
  lemma PrefixAll<V>(d: Dict<V>)
    requires Valid(d)
    ensures Prefix(d, |d.keys|) == d
  {
    assert d.keys[..|d.keys|] == d.keys;
  }
}
