/** Small shared datatypes. */
module Prelude {
  datatype Option<+T> = None | Some(value: T)

  datatype Result<+T, +E> = Ok(value: T) | Err(error: E)
}

/** The greatest element of a finite set of integers. */
module Maxima {
  ghost function Latest(ts: set<int>): (m: int)
    requires exists t :: t in ts
    ensures m in ts
    ensures forall t :: t in ts ==> t <= m
  {
    var t :| t in ts;
    var rest := ts - {t};
    assert forall u :: u in ts ==> u == t || u in rest;
    if exists u :: u in rest then
      var m := Latest(rest);
      if t < m then m else t
    else t
  }
}
