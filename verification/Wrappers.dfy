/** The optional value the models use for JavaScript's null, undefined and "not in the Map". */
module Wrappers {
  datatype Option<+T> = None | Some(value: T)

  /** map.get(key) ?? otherwise */
  function Get<K, V>(m: map<K, V>, key: K, otherwise: V): V { if key in m then m[key] else otherwise }

  /** map.get(key) */
  function Find<K, V>(m: map<K, V>, key: K): Option<V> { if key in m then Some(m[key]) else None }
}
