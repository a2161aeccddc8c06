/**
  A Python dict as the pipeline uses it: a mapping that remembers the order
  in which its keys were first stored, and iterates in that order.
*/
module OrderedDict {

  datatype Dict<K, V> = Dict(keys: seq<K>, table: map<K, V>) {

    /** Every key is listed once, and the listed keys are the mapped ones. */
    ghost predicate Valid() {
      && (forall i, j :: 0 <= i < j < |keys| ==> keys[i] != keys[j])
      && table.Keys == (set k | k in keys)
    }

    /** len(d). */
    function Len(): nat {
      |keys|
    }

    /** d[k] = v: a new key goes to the end of the order, an existing key
        keeps its place. */
    function Put(k: K, v: V): (d: Dict<K, V>)
      requires Valid()
      ensures d.Valid()
      ensures d.table == table[k := v]
      ensures k in table ==> d.keys == keys
      ensures k !in table ==> d.keys == keys + [k]
    {
      if k in table then Dict(keys, table[k := v]) else Dict(keys + [k], table[k := v])
    }

    /** d.items(), in insertion order. */
    function Items(): (items: seq<(K, V)>)
      requires Valid()
      ensures |items| == |keys|
      ensures forall i :: 0 <= i < |keys| ==> items[i] == (keys[i], table[keys[i]])
      ensures forall i, j :: 0 <= i < j < |items| ==> items[i].0 != items[j].0
      ensures (set i | 0 <= i < |items| :: items[i].0) == table.Keys
    {
      seq(|keys|, i requires 0 <= i < |keys| => (keys[i], table[keys[i]]))
    }
  }

  function Empty<K, V>(): (d: Dict<K, V>)
    ensures d.Valid() && d.Len() == 0
  {
    Dict([], map[])
  }
}
