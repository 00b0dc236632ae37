/** Small pieces of the C++ standard library the program relies on. */
module Containers {

  /** A value that may be missing. */
  datatype Option<+T> = None | Some(value: T)

  /** `std::map::emplace`: inserts the pair only when the key is absent,
      and otherwise leaves the map as it was. */
  function Emplace<K, V>(m: map<K, V>, k: K, v: V): (r: map<K, V>)
    ensures k in r && r[k] == (if k in m then m[k] else v)
    ensures forall j :: j in m ==> j in r && r[j] == m[j]
    ensures forall j :: j in r ==> j in m || j == k
  {
    if k in m then m else m[k := v]
  }
}
