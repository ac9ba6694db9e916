/** Result types and small facts shared by the models. */
module Wrappers {
  datatype Option<+T> = None | Some(value: T)

  datatype Result<+T, +E> = Ok(value: T) | Err(error: E)

  /** Some element of a set. */
  method Pick<T(==)>(s: set<T>) returns (x: T)
    requires s != {}
    ensures x in s
  {
    x :| x in s;
  }

  lemma SubsetSize<T>(a: set<T>, b: set<T>)
    requires a <= b
    ensures |a| <= |b|
  {
    assert b == a + (b - a);
  }

  /** Of the entries for k, the last one is v. */
  ghost predicate LastEntry<K(!new), V(!new)>(s: seq<(K, V)>, k: K, v: V) {
    exists i :: 0 <= i < |s| && s[i] == (k, v) && forall j | i < j < |s| :: s[j].0 != k
  }

  lemma LastEntrySnoc<K(!new), V(!new)>(s: seq<(K, V)>, e: (K, V), k: K, v: V)
    ensures LastEntry(s + [e], k, v) <==> if e.0 == k then e.1 == v else LastEntry(s, k, v)
  {
    var all := s + [e];
    assert all[|s|] == e;
    assert forall i | 0 <= i < |s| :: all[i] == s[i];
    if e.0 == k && e.1 == v {
      assert all[|s|] == (k, v);
    } else if e.0 != k && LastEntry(s, k, v) {
      var i :| 0 <= i < |s| && s[i] == (k, v) && forall j | i < j < |s| :: s[j].0 != k;
      assert all[i] == (k, v);
    }
  }
}
