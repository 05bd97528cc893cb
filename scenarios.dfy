/**
 * The chain the test setup registers (soft delete, then update fills, then insert
 * fills) applied to statements on a BaseTable.
 */
module Scenarios {
  import opened Wrappers
  import opened SqlAst
  import AutoFill
  import LogicalDelete
  import opened Compositor
  import BaseEntity

  const CreatedAt := FillSpec("created_at", InstantNow, TimestampSql)
  const UpdatedAt := FillSpec("updated_at", InstantNow, TimestampSql)

  /** Builds the chain in the order the tests register it. */
  method DefaultChain() returns (chain: CompositorVisitorInterceptor)
    ensures fresh(chain)
    ensures chain.interceptors ==
              [Interceptor(0, Logical), Interceptor(1, UpdateAutoFill), Interceptor(2, InsertAutoFill)]
  {
    chain := new CompositorVisitorInterceptor();
    var c := chain.Register(Interceptor(0, Logical));
    c := c.Register(Interceptor(1, UpdateAutoFill));
    c := c.Register(Interceptor(2, InsertAutoFill));
  }

  /** Threading through three members is three steps. */
  lemma ThreadThree(i0: Interceptor, i1: Interceptor, i2: Interceptor, e: Stmt, generate: FillSpec -> Value)
    ensures Thread([i0, i1, i2], e, generate) == Step(i2, Step(i1, Step(i0, e, generate), generate), generate)
  {
    var e0 := Step(i0, e, generate);
    var e1 := Step(i1, e0, generate);
    assert [i0, i1, i2][1..] == [i1, i2];
    assert [i1, i2][1..] == [i2];
    assert [i2][1..] == [];
    assert Thread([i0, i1, i2], e, generate) == Thread([i1, i2], e0, generate);
    assert Thread([i1, i2], e0, generate) == Thread([i2], e1, generate);
    assert Thread([i2], e1, generate) == Thread([], Step(i2, e1, generate), generate);
  }

  /**
   * An insert into a BaseTable that assigns neither timestamp gains `updated_at`
   * (from the update-fill member, which acts on inserts) and then `created_at`
   * (the insert-fill member skips `updated_at`, already assigned).
   */
  method InsertThroughDefaultChain(tableName: string, assignments: seq<Assignment>, generate: FillSpec -> Value)
    returns (r: Option<Stmt>)
    requires "created_at" !in ColumnsOf(assignments) && "updated_at" !in ColumnsOf(assignments)
    ensures r.Some? && r.value.Insert? && r.value.table.name == tableName
    ensures r.value.assignments ==
              assignments + [AutoFill.FillAssignment(UpdatedAt, generate), AutoFill.FillAssignment(CreatedAt, generate)]
  {
    var table := new BaseEntity.BaseTable(tableName, None);
    var chain := DefaultChain();
    var t := table.AsExpression();
    var st := Insert(t, assignments);
    r := chain.Intercept(st, generate);
    ThreadThree(Interceptor(0, Logical), Interceptor(1, UpdateAutoFill), Interceptor(2, InsertAutoFill), st, generate);
    var u := AutoFill.FillAssignment(UpdatedAt, generate);
    var c := AutoFill.FillAssignment(CreatedAt, generate);
    // the update-fill member
    assert [CreatedAt, UpdatedAt][1..] == [UpdatedAt];
    assert AutoFill.Missing([UpdatedAt], ColumnsOf(assignments)) == [UpdatedAt];
    assert AutoFill.Generated([UpdatedAt], generate) == [u];
    var afterUpdate := Insert(t, assignments + [u]);
    assert Step(Interceptor(1, UpdateAutoFill), st, generate) == afterUpdate;
    // the insert-fill member
    AutoFill.ColumnsOfAppend(assignments, [u]);
    assert ColumnsOf([u]) == {"updated_at"};
    var taken := ColumnsOf(assignments + [u]);
    assert "updated_at" in taken && "created_at" !in taken;
    assert AutoFill.Missing([UpdatedAt], taken + {"created_at"}) == [];
    assert [CreatedAt, UpdatedAt][0] == CreatedAt && CreatedAt.columnName !in taken;
    assert AutoFill.Missing([CreatedAt, UpdatedAt], taken) ==
           [CreatedAt] + AutoFill.Missing([UpdatedAt], taken + {"created_at"});
    assert AutoFill.Generated([CreatedAt], generate) == [c];
    assert Step(Interceptor(2, InsertAutoFill), afterUpdate, generate) == Insert(t, assignments + [u] + [c]);
    assert assignments + [u] + [c] == assignments + [u, c];
  }

  /** An update statement passes the chain unchanged: no member rewrites updates. */
  method UpdateThroughDefaultChain(tableName: string, assignments: seq<Assignment>, where: Option<Cond>,
                                   generate: FillSpec -> Value)
    returns (r: Option<Stmt>)
    ensures r.None?
  {
    var table := new BaseEntity.BaseTable(tableName, None);
    var chain := DefaultChain();
    var t := table.AsExpression();
    var st := Update(t, assignments, where);
    r := chain.Intercept(st, generate);
    ThreadThree(Interceptor(0, Logical), Interceptor(1, UpdateAutoFill), Interceptor(2, InsertAutoFill), st, generate);
  }

  /** A select over one BaseTable gains `deleted = false` in its WHERE clause, and nothing else. */
  method SelectThroughDefaultChain(tableName: string, projection: seq<string>, generate: FillSpec -> Value)
    returns (r: Option<Stmt>)
    ensures r.Some? && r.value.QueryStmt? && r.value.query.SelectQuery?
    ensures var sel := r.value.query.select;
            && sel.from.TableSource? && sel.from.table.name == tableName
            && sel.where == Some(EqFalse(sel.from.table, "deleted"))
            && sel.projection == projection
  {
    var table := new BaseEntity.BaseTable(tableName, None);
    var chain := DefaultChain();
    var t := table.AsExpression();
    var st := QueryStmt(SelectQuery(Select(TableSource(t), None, projection)));
    r := chain.Intercept(st, generate);
    ThreadThree(Interceptor(0, Logical), Interceptor(1, UpdateAutoFill), Interceptor(2, InsertAutoFill), st, generate);
    assert LogicalDelete.InterceptSource(TableSource(t)) == (TableSource(t), Some(EqFalse(t, "deleted")));
  }

  /** The same select after Query.disableLogicalDeleted passes the chain unchanged. */
  method OptedOutSelectThroughDefaultChain(tableName: string, projection: seq<string>, generate: FillSpec -> Value)
    returns (r: Option<Stmt>)
    ensures r.None?
  {
    var table := new BaseEntity.BaseTable(tableName, None);
    var chain := DefaultChain();
    var t := table.AsExpression();
    var opted := BaseEntity.QueryDisableLogicalDeleted(SelectQuery(Select(TableSource(t), None, projection)));
    var st := QueryStmt(opted.value);
    r := chain.Intercept(st, generate);
    ThreadThree(Interceptor(0, Logical), Interceptor(1, UpdateAutoFill), Interceptor(2, InsertAutoFill), st, generate);
    LogicalDelete.NoSoftDeleteQueryUnchanged(opted.value);
  }
}
