/** Small vocabulary used by every component. */
module Basics {

  datatype Option<+T> = None | Some(value: T)

  /** Points in time and durations, in nanoseconds. */
  type Time = int

  const SECOND: Time := 1_000_000_000

  /** Time elapsed since an instant; a clock that went backwards counts as no
      time. */
  function Age(now: Time, since: Time): Time {
    if now < since then 0 else now - since
  }

  function Lookup<K, V>(m: map<K, V>, key: K): Option<V> {
    if key in m then Some(m[key]) else None
  }
}
