// Effective-dated weekly-off selections.

module OffRows {
  import opened Basics

  /** An override of one employee, or (employee ignored) a tenant default, `[from, to)`. */
  datatype OffRow = OffRow(employee: nat, from: Date, to: Option<Date>, days: set<nat>)

  predicate Covers(r: OffRow, d: Date) {
    r.from <= d && (r.to.None? || d < r.to.value)
  }

  /** The first row whose range contains the date. */
  function FindCovering(rows: seq<OffRow>, d: Date): (r: Option<OffRow>)
    ensures r.Some? ==> r.value in rows && Covers(r.value, d)
    ensures r.None? ==> forall q :: q in rows ==> !Covers(q, d)
  {
    if rows == [] then None else if Covers(rows[0], d) then Some(rows[0]) else FindCovering(rows[1..], d)
  }
}
