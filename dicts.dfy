/** Python's `None`-or-value and its insertion-ordered `dict`, keyed by record ids. */
module Dicts {

  datatype Option<+T> = None | Some(value: T)

  /** A dict keyed by integer record ids: `keys` is the insertion order that
      `.keys()` and `.items()` iterate in, `entries` maps each key to its value. */
  datatype Dict<V> = Dict(keys: seq<int>, entries: map<int, V>)
  {
    /** Every key is listed exactly once, and the listed keys are the mapped ones. */
    ghost predicate Valid()
    {
      && (forall i, j :: 0 <= i < j < |keys| ==> keys[i] != keys[j])
      && (forall k :: k in entries <==> k in keys)
    }

    /** `d[k] = v`: a key already present keeps its place, a new key goes last. */
    function Put(k: int, v: V): (d: Dict<V>)
      requires Valid()
      ensures d.Valid()
      ensures d.entries == entries[k := v]
      ensures d.keys == if k in entries then keys else keys + [k]
    {
      if k in entries then Dict(keys, entries[k := v]) else Dict(keys + [k], entries[k := v])
    }
  }

  /** `{}` */
  function EmptyDict<V>(): (d: Dict<V>)
    ensures d.Valid() && d.keys == [] && d.entries == map[]
  {
    Dict([], map[])
  }
}
