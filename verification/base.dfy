/** Small datatypes every other module uses. */
module Base {

  datatype Option<+T> = None | Some(value: T)

  /** What one SQL write does: succeed, fail without touching the table, or fail
      after the write already took effect (the caller cannot tell the last two apart). */
  datatype Fault = Works | FailsUnapplied | FailsApplied

  /** The database's part in one write: how it goes, and the clock second it stamps. */
  datatype Response = Response(fault: Fault, at: int)

  predicate Distinct<T(==)>(xs: seq<T>) {
    forall i, j :: 0 <= i < j < |xs| ==> xs[i] != xs[j]
  }
}
