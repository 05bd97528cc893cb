/** InsertAutoFillVisitorInterceptor: the insert fills of the target table, appended to insert statements. */
module InsertAutoFill {
  import opened Wrappers
  import opened SqlAst
  import opened AutoFill

  /** InsertAutoFillVisitorInterceptor.intercept; None is "no change". */
  function InsertAutoFillIntercept(st: Stmt, generate: FillSpec -> Value): (r: Option<Stmt>)
    ensures !st.Insert? ==> r.None?
    ensures st.Insert? && st.table.props.insertFills == [] ==> r.None?
    ensures st.Insert? ==> (r.None? <==> SpecColumns(st.table.props.insertFills) <= ColumnsOf(st.assignments))
    ensures r.Some? ==> && r.value.Insert? && r.value.table == st.table
                        && r.value.assignments == AutoFilled(st.assignments, st.table.props.insertFills, generate)
  {
    FillIntercept(st, AtInsert, generate)
  }

  /** A column the insert already assigns keeps its one explicit assignment. */
  lemma ExplicitAssignmentWins(st: Stmt, generate: FillSpec -> Value, column: string)
    requires st.Insert? && column in ColumnsOf(st.assignments)
    ensures var r := InsertAutoFillIntercept(st, generate);
            r.Some? ==> && r.value.assignments[..|st.assignments|] == st.assignments
                        && column !in ColumnsOf(r.value.assignments[|st.assignments|..])
  {
    var r := InsertAutoFillIntercept(st, generate);
    if r.Some? {
      var a := st.assignments;
      var out := r.value.assignments;
      AutoFillAppendsFresh(a, st.table.props.insertFills, generate);
      assert out[..|a|] == a;
      var tail := out[|a|..];
      forall k | 0 <= k < |tail| ensures tail[k].column != column {
        assert tail[k] == out[|a| + k];
      }
    }
  }
}
