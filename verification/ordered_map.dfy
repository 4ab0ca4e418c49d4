/** A JavaScript `Map`: keys iterate in first-insertion order, and `set` on
    a present key replaces its value in place without moving the key. */
module OrderedMaps {

  datatype OrderedMap<K(!new), V> = OrderedMap(keys: seq<K>, values: map<K, V>)
  {
    /** The keys are distinct and are exactly the keys with a value. */
    ghost predicate Valid() {
      && (forall i, j :: 0 <= i < j < |keys| ==> keys[i] != keys[j])
      && (forall k :: k in values <==> k in keys)
    }

    /** `map.size` */
    function Size(): nat { |keys| }

    /** `map.has(k)` */
    predicate Has(k: K) { k in values }

    /** `map.set(k, v)` */
    function Set(k: K, v: V): (r: OrderedMap<K, V>)
      requires Valid()
      ensures r.Valid()
      ensures r.values == values[k := v]
      ensures k in values ==> r.keys == keys
      ensures k !in values ==> r.keys == keys + [k]
    {
      if k in values then OrderedMap(keys, values[k := v])
      else OrderedMap(keys + [k], values[k := v])
    }
  }

  /** `new Map()`, and the state after `map.clear()`. */
  function Empty<K(!new), V>(): (r: OrderedMap<K, V>)
    ensures r.Valid() && r.Size() == 0
  {
    OrderedMap([], map[])
  }
}
