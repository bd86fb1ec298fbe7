/** An optional value: a nullable column, or the row that a lookup by key may or may not find. */
module Options {
  datatype Option<+T> = None | Some(value: T)

  function Lookup<K, V>(table: map<K, V>, key: K): Option<V> {
    if key in table then Some(table[key]) else None
  }
}
