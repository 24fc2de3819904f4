/** Python's `dict`: a finite map that remembers the order in which its keys were first
    inserted. Assigning to an existing key changes its value and keeps its position. */
module PyDict {

  datatype Dict<K(==), V> = Dict(keys: seq<K>, vals: map<K, V>) {

    /** Keys are listed once each, and exactly the mapped keys are listed. */
    ghost predicate Valid()
    {
      && (forall i, j :: 0 <= i < j < |keys| ==> keys[i] != keys[j])
      && (forall k :: k in vals ==> k in keys)
      && (forall i :: 0 <= i < |keys| ==> keys[i] in vals)
    }

    /** `d[k] = v` */
    function Put(k: K, v: V): (r: Dict<K, V>)
      ensures r.vals == vals[k := v]
      ensures k in vals ==> r.keys == keys
      ensures k !in vals ==> r.keys == keys + [k]
    {
      if k in vals then Dict(keys, vals[k := v]) else Dict(keys + [k], vals[k := v])
    }

    /** Where a mapped key is listed. */
    lemma Position(k: K) returns (i: nat)
      requires Valid() && k in vals
      ensures i < |keys| && keys[i] == k
    {
      i :| 0 <= i < |keys| && keys[i] == k;
    }

    /** Assignment keeps every key listed once. */
    lemma PutKeepsValid(k: K, v: V)
      requires Valid()
      ensures Put(k, v).Valid()
    {
      var r := Put(k, v);
      if k !in vals {
        assert forall i :: 0 <= i < |keys| ==> r.keys[i] == keys[i];
      }
    }

    /** `d.get(k, default)` */
    function Get(k: K, default: V): (v: V)
      ensures k in vals ==> v == vals[k]
      ensures k !in vals ==> v == default
    {
      if k in vals then vals[k] else default
    }

    /** `list(d.values())`, in key order. */
    function Values(): (r: seq<V>)
      requires Valid()
      ensures |r| == |keys|
      ensures forall i :: 0 <= i < |keys| ==> r[i] == vals[keys[i]]
    {
      seq(|keys|, i requires 0 <= i < |keys| => vals[keys[i]])
    }
  }

  /** `{}` */
  function Empty<K(==), V>(): (d: Dict<K, V>)
    ensures d.Valid() && d.keys == [] && d.vals == map[]
  {
    Dict([], map[])
  }
}
