/**
 What the other modules need of collections.
 */
module Collections {

  datatype Option<+T> = None | Some(value: T)

  function ToSet<T>(s: seq<T>): set<T> {
    set x | x in s
  }

  lemma Slices<T>(s: seq<T>, k: nat)
    requires k < |s|
    ensures s[..k + 1] == [s[0]] + s[1..][..k] && s[1..][k..] == s[k + 1..]
  {
  }
}
