/**
 * The part of ktorm's statement tree that the interceptors look at, as a closed
 * set of variants, together with the typed view of a table's extra properties.
 */
module SqlAst {
  import opened Wrappers

  /** The codec of a column or an argument. */
  datatype SqlType = BooleanSql | LongSql | TimestampSql | OtherSql(name: string)

  /** The zero-argument function a fill spec calls at rewrite time. */
  datatype Generator = InstantNow | CustomGenerator(id: nat)

  /** ColumnGenerateFillValue: the column to fill, how its value is made, its codec. */
  datatype FillSpec = FillSpec(columnName: string, generator: Generator, sqlType: SqlType)

  /**
   * The extra properties of a table, typed: the soft-delete column
   * (LOGICAL_DELETED_COLUMN), the insert fills (INSERT_FILL_COLUMNS) and the
   * update fills (UPDATE_FILL_COLUMNS). A missing entry is None or [].
   */
  datatype Props = Props(softDelete: Option<string>, insertFills: seq<FillSpec>, updateFills: seq<FillSpec>)

  const NoProps := Props(None, [], [])

  /** TableExpression: a name, an optional alias and the table's extra properties. */
  datatype Table = Table(name: string, alias: Option<string>, props: Props)

  /** What a generator returned; its concrete type (an instant, a number) does not matter here. */
  type Value = int

  /** Boolean conditions: the soft-delete test, a conjunction, and anything else. */
  datatype Cond =
    | EqFalse(table: Table, column: string)  // `table.column = false`
    | And(left: Cond, right: Cond)
    | OpaqueCond(id: nat)                    // a condition written by the caller

  datatype JoinType = InnerJoin | LeftJoin | RightJoin | FullJoin | CrossJoin

  /** SelectExpression: the fields the interceptors read or copy. */
  datatype Select = Select(from: Source, where: Option<Cond>, projection: seq<string>)

  /** QueryExpression: a select or a union of two queries. */
  datatype Query = SelectQuery(select: Select) | Union(left: Query, right: Query, isUnionAll: bool)

  /** QuerySourceExpression: a table, a join, or a query used as a source. */
  datatype Source =
    | TableSource(table: Table)
    | Join(kind: JoinType, left: Source, right: Source, condition: Option<Cond>)
    | QuerySource(query: Query)

  /** The right-hand side of an assignment: a bound argument or any other expression. */
  datatype ScalarExpr = Argument(value: Value, sqlType: SqlType) | OpaqueExpr(id: nat)

  /** ColumnAssignmentExpression; columns are compared by name only. */
  datatype Assignment = Assignment(column: string, expression: ScalarExpr)

  /** The statement roots handed to the interceptor chain. */
  datatype Stmt =
    | QueryStmt(query: Query)
    | Insert(table: Table, assignments: seq<Assignment>)
    | Update(table: Table, assignments: seq<Assignment>, where: Option<Cond>)
    | Delete(table: Table, where: Option<Cond>)

  /** The conjuncts of a condition: the leaves of its `And` tree. */
  function Atoms(c: Cond): multiset<Cond>
  {
    match c
    case And(l, r) => Atoms(l) + Atoms(r)
    case _ => multiset{c}
  }

  function AtomsOf(c: Option<Cond>): multiset<Cond>
  {
    if c.None? then multiset{} else Atoms(c.value)
  }

  /** The column names an assignment list sets. */
  function ColumnsOf(a: seq<Assignment>): set<string>
  {
    set x | x in a :: x.column
  }

  /** The column names a list of fill specs targets. */
  function SpecColumns(fills: seq<FillSpec>): set<string>
  {
    set f | f in fills :: f.columnName
  }
}
