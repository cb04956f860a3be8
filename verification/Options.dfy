/** A value that may be missing, and maps in which an entry replaces others. */
module Options {

  datatype Option<+T> = None | Some(value: T)

  /** The map in which `key` is stored and the keys `gone` no longer are. */
  ghost function Put<K, V>(m: map<K, V>, gone: set<K>, key: K, v: V): map<K, V> {
    (m - gone)[key := v]
  }
}
