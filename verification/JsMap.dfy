/** A JavaScript Map: a finite map that remembers insertion order. Setting an existing key keeps
    its place; deleting and setting again moves it to the end. */
module JsMap {
  import opened Ordering

  datatype Option<T> = None | Some(value: T)

  function Except<K(==)>(k: K): K -> bool { x => x != k }

  datatype OrderedMap<K(==), V> = OrderedMap(order: seq<K>, m: map<K, V>) {

    ghost predicate Valid() {
      Distinct(order) && Elements(order) == m.Keys
    }

    function Set(k: K, v: V): (r: OrderedMap<K, V>)
      ensures Valid() ==> r.Valid()
      ensures r.m == m[k := v]
    {
      OrderedMap(if k in m then order else order + [k], m[k := v])
    }

    function Delete(k: K): (r: OrderedMap<K, V>)
      ensures Valid() ==> r.Valid()
      ensures r.m == m - {k}
    {
      var r := OrderedMap(Keep(order, Except(k)), m - {k});
      assert Valid() ==> r.Valid() by { if Valid() { KeepDistinct(order, Except(k)); KeepElements(order, Except(k)); } }
      r
    }

    function GetOr(k: K, v: V): V {
      if k in m then m[k] else v
    }
  }

  function Empty<K(==), V>(): (r: OrderedMap<K, V>)
    ensures r.Valid()
  {
    OrderedMap([], map[])
  }
}
