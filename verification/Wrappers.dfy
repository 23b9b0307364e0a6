/** A value that may be absent. */
module Wrappers {
  datatype Option<+T> = None | Some(value: T)

  /** A number that is no key yet. */
  lemma {:induction false} Fresh<T>(m: map<nat, T>) returns (k: nat)
    ensures forall j <- m :: j < k
  {
    if m == map[] {
      k := 0;
    } else {
      var j :| j in m;
      var i := Fresh(m - {j});
      k := if j < i then i else j + 1;
      assert forall l <- m :: l == j || l in m - {j};
    }
  }
}
