/**
 JavaScript's Map: a map that remembers the order in which its keys were first set; setting a key again keeps its place.
 */
module JsMaps {
  import opened Sequences

  datatype JsMap<K(==), V> = JsMap(keys: seq<K>, items: map<K, V>)

  /** What every Map built with Set satisfies: each key listed once. */
  ghost predicate Ordered<K, V>(m: JsMap<K, V>) {
    && Distinct(m.keys)
    && (forall k :: k in m.items ==> k in m.keys)
    && (forall k :: k in m.keys ==> k in m.items)
  }

  function Empty<K(==), V>(): JsMap<K, V> {
    JsMap([], map[])
  }

  function Set<K(==), V>(m: JsMap<K, V>, k: K, v: V): JsMap<K, V> {
    JsMap(if k in m.items then m.keys else m.keys + [k], m.items[k := v])
  }

  function Get<K(==), V>(m: JsMap<K, V>, k: K, default: V): V {
    if k in m.items then m.items[k] else default
  }

  lemma SetKeepsOrdered<K, V>(m: JsMap<K, V>, k: K, v: V)
    requires Ordered(m)
    ensures Ordered(Set(m, k, v))
  {
  }
}
