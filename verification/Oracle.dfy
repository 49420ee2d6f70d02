/** The Oracle table and what one MERGE does to it and reports.

    The table's primary key is (MK_DATE, STA_NO1-3); the MERGE matches on those
    columns and T1_STATUS together and inserts when nothing matches. Rows are
    never removed. */
module Oracle {
  import opened Text
  import opened Records

  datatype Pk = Pk(mkDate: string, sta1: string, sta2: string, sta3: string)

  function PkOf(r: Record): Pk { Pk(r.mkDate, r.sta1, r.sta2, r.sta3) }

  /** The key is the four columns, no more and no less. */
  lemma KeyIsFourColumns(a: Record, b: Record)
    ensures PkOf(a) == PkOf(b) <==> a.mkDate == b.mkDate && a.sta1 == b.sta1 && a.sta2 == b.sta2 && a.sta3 == b.sta3
  {}

  /** T1_STATUS by primary key. */
  type Table = map<Pk, int>

  /** The record's own row is in the table. */
  predicate Holds(t: Table, r: Record) { PkOf(r) in t && t[PkOf(r)] == r.t1 }

  /** A different row holds the record's primary key. */
  predicate Conflicts(t: Table, r: Record) { PkOf(r) in t && t[PkOf(r)] != r.t1 }

  /** Every row of `a` is still there in `b`. */
  predicate Grown(a: Table, b: Table) { forall k | k in a :: k in b && b[k] == a[k] }

  lemma GrownKeeps(a: Table, b: Table, r: Record)
    requires Grown(a, b)
    ensures Holds(a, r) ==> Holds(b, r)
    ensures Conflicts(a, r) ==> Conflicts(b, r)
  {}

  /** ORA-00001, unique constraint violated. */
  const ORA_UNIQUE := 1

  /** `errorMessage` is an option because the code compares it with `None`. */
  datatype MergeResult = MergeResult(rowsAffected: nat, oraCode: Option<int>, errorMessage: Option<string>)

  /** What goes wrong with one call: nothing, an error after the commit, or an
      error before it. */
  datatype Fault =
    | Clean
    | ErrorAfterCommit(code: Option<int>, message: string)
    | ErrorBeforeCommit(code: Option<int>, message: string)

  /** The adapters' contract: a failure is visible in the result, and the codes
      given up on are reported only for a key another row holds. */
  predicate FaultOk(f: Fault, unretryable: set<int>) {
    f.Clean? || ((f.code.None? ==> f.message != "") && (f.code.Some? ==> f.code.value !in unretryable))
  }

  function TableAfter(t: Table, r: Record, f: Fault): Table {
    if f.ErrorBeforeCommit? || PkOf(r) in t then t else t[PkOf(r) := r.t1]
  }

  function ResultOf(t: Table, r: Record, f: Fault): MergeResult {
    match f
    case ErrorAfterCommit(code, message) => MergeResult(0, code, Some(message))
    case ErrorBeforeCommit(code, message) => MergeResult(0, code, Some(message))
    case Clean =>
      if Conflicts(t, r) then MergeResult(0, Some(ORA_UNIQUE), Some("unique constraint violated"))
      else MergeResult(if Holds(t, r) then 0 else 1, None, Some(""))
  }

  /** The sender's success test. As written it asks for `error_message is None`,
      which the adapters never return; the meant test is "no code and no message". */
  predicate IsSuccess(result: MergeResult, literal: bool) {
    result.oraCode.None? && (result.errorMessage.None? || (!literal && result.errorMessage.value == ""))
  }

  predicate GivesUp(result: MergeResult, unretryable: set<int>) {
    result.oraCode.Some? && result.oraCode.value in unretryable
  }

  /** What a result tells: success means the row is in the table, giving up means
      another row has its key, and neither lets the table lose a row. */
  lemma MergeMeaning(t: Table, r: Record, f: Fault, unretryable: set<int>, literal: bool)
    requires FaultOk(f, unretryable)
    ensures Grown(t, TableAfter(t, r, f))
    ensures IsSuccess(ResultOf(t, r, f), literal) ==> Holds(TableAfter(t, r, f), r)
    ensures GivesUp(ResultOf(t, r, f), unretryable) ==> Conflicts(TableAfter(t, r, f), r)
    ensures TableAfter(t, r, f) != t ==> PkOf(r) !in t && TableAfter(t, r, f) == t[PkOf(r) := r.t1]
    ensures ResultOf(t, r, f).rowsAffected == if f.Clean? && TableAfter(t, r, f) != t then 1 else 0
  {}

  /** A retry is safe: whatever happened to the first MERGE, a second clean one
      succeeds exactly when no other row has the key, and inserts nothing twice. */
  lemma MergeIsIdempotent(t: Table, r: Record, f: Fault)
    ensures var once := TableAfter(t, r, f);
            && TableAfter(TableAfter(once, r, Clean), r, Clean) == TableAfter(once, r, Clean)
            && (f.ErrorAfterCommit? ==> ResultOf(once, r, Clean).rowsAffected == 0)
            && (IsSuccess(ResultOf(once, r, Clean), false) <==> !Conflicts(t, r))
  {}

  class OracleTable {
    var rows: Table

    constructor ()
      ensures rows == map[]
    {
      rows := map[];
    }

    /** `execute_merge`: the statement runs, then the commit, then the reply. */
    method ExecuteMerge(r: Record, fault: Fault) returns (result: MergeResult)
      modifies this
      ensures rows == TableAfter(old(rows), r, fault)
      ensures result == ResultOf(old(rows), r, fault)
    {
      if fault.ErrorBeforeCommit? {
        return MergeResult(0, fault.code, Some(fault.message));
      }
      var affected := 0;
      var code: Option<int> := None;
      if !(PkOf(r) in rows && rows[PkOf(r)] == r.t1) {
        if PkOf(r) in rows {
          code := Some(ORA_UNIQUE);
        } else {
          rows := rows[PkOf(r) := r.t1];
          affected := 1;
        }
      }
      if fault.ErrorAfterCommit? {
        return MergeResult(0, fault.code, Some(fault.message));
      }
      if code.Some? {
        return MergeResult(0, code, Some("unique constraint violated"));
      }
      return MergeResult(affected, None, Some(""));
    }
  }
}
