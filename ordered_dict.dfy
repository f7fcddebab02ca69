/** Python's `dict` as the round uses it: assignment to a key keeps the
    position of a key that is already present and appends a new key, and
    iteration follows that insertion order. */
module OrderedDict {

  datatype Dict<K(==), V> = Dict(keys: seq<K>, entries: map<K, V>) {

    /** Each key is listed once, and exactly the stored keys are listed. */
    ghost predicate Valid()
    {
      (forall i, j :: 0 <= i < j < |keys| ==> keys[i] != keys[j]) &&
      (forall i :: 0 <= i < |keys| ==> keys[i] in entries) &&
      (forall k | k in entries :: k in keys)
    }

    /** `d.get(k, default)`. */
    function Get(k: K, default: V): V
    {
      if k in entries then entries[k] else default
    }

    /** `d[k] = v`. */
    function Put(k: K, v: V): (d: Dict<K, V>)
      requires Valid()
      ensures d.Valid()
      ensures d.entries == entries[k := v]
      ensures k in entries ==> d.keys == keys
      ensures k !in entries ==> d.keys == keys + [k]
    {
      if k in entries then Dict(keys, entries[k := v])
      else Dict(keys + [k], entries[k := v])
    }

    /** `list(d.values())`: the values in insertion order of their keys. */
    function Values(): (vs: seq<V>)
      requires Valid()
      ensures |vs| == |keys|
      ensures forall i :: 0 <= i < |keys| ==> vs[i] == entries[keys[i]]
    {
      ValuesOf(keys, entries)
    }
  }

  function ValuesOf<K, V>(keys: seq<K>, entries: map<K, V>): (vs: seq<V>)
    requires forall i :: 0 <= i < |keys| ==> keys[i] in entries
    ensures |vs| == |keys|
    ensures forall i :: 0 <= i < |keys| ==> vs[i] == entries[keys[i]]
  {
    if keys == [] then [] else [entries[keys[0]]] + ValuesOf(keys[1..], entries)
  }

  /** `{}`. */
  function Empty<K(==), V>(): (d: Dict<K, V>)
    ensures d.Valid() && d.keys == [] && d.entries == map[]
  {
    Dict([], map[])
  }
}
