/** Option and Result, the two failure-carrying wrappers the model uses:
    Option for Python's `None` / a missing dictionary entry, Result for a
    call that either returns a value or raises `ValueError`. */
module Wrappers {

  datatype Option<+T> = None | Some(value: T) {
    /** `d.get(k, default)` once the lookup is done. */
    function GetOr(default: T): T {
      match this
      case Some(v) => v
      case None => default
    }
  }

  /** `Raised` stands for the `ValueError` that `int()` raises on text that is
      not a number; no other exception is modelled. */
  datatype Result<+T> = Ok(value: T) | Raised

  /** A member of a non-empty set, for the loops that visit a dictionary's
      keys one at a time. */
  lemma SomeMember<T>(s: set<T>) returns (x: T)
    requires s != {}
    ensures x in s
  {
    if forall y :: y !in s {
      assert false;
    }
    x :| x in s;
  }

  /** `d.get(k, default)` on a dictionary. */
  function Lookup<K, V>(m: map<K, V>, k: K, default: V): (v: V)
    ensures k in m ==> v == m[k]
    ensures k !in m ==> v == default
  {
    if k in m then m[k] else default
  }
}
