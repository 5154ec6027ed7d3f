/** Kotlin's nullable values (`T?`) and the Elvis operator `?:`. */
module Wrappers {

  datatype Option<+T> = None | Some(value: T) {

    /** `x ?: default` */
    function GetOr(default: T): T {
      match this
      case Some(v) => v
      case None => default
    }
  }

  /** `m[k] ?: default`, a map lookup that falls back to `default` for a missing key. */
  function MapGetOr<K, V>(m: map<K, V>, k: K, default: V): V {
    if k in m then m[k] else default
  }
}
