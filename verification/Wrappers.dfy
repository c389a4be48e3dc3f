module Wrappers {
  datatype Option<+T> = None | Some(value: T)

  /** An id above all those in use. */
  lemma {:induction false} Unused(ids: set<nat>) returns (id: nat)
    ensures forall i | i in ids :: i < id
  {
    if ids == {} {
      id := 0;
    } else {
      var i :| i in ids;
      var rest := Unused(ids - {i});
      id := if i < rest then rest else i + 1;
      assert forall j | j in ids :: j == i || j in ids - {i};
    }
  }
}
