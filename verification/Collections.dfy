/** Definitions shared by all models. */
module Collections {

  datatype Option<T> = None | Some(value: T)

  /** Where the key first occurs. */
  function IndexOf<T(==)>(s: seq<T>, key: T): (i: nat)
    requires key in s
    ensures i < |s| && s[i] == key && key !in s[..i]
  {
    if s[0] == key then 0 else 1 + IndexOf(s[1..], key)
  }
}
