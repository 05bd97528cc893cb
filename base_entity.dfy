/**
 * BaseTable: a table declaration that records its rewrite directives (soft-delete
 * column, insert fills, update fills) in its extra properties while its columns
 * are declared; and the opt-out that removes the soft-delete directive from the
 * table nodes of one statement.
 */
module BaseEntity {
  import opened Wrappers
  import opened SqlAst
  import LogicalDelete

  /** A declared column: its name and codec. */
  datatype Column = Column(name: string, sqlType: SqlType)

  class BaseTable {
    const tableName: string
    const alias: Option<string>
    /** `_extraProperties`, typed. */
    var extraProperties: Props

    /**
     * Declares the default columns: `deleted` is the soft-delete column,
     * `created_at` is filled at insert, `updated_at` at update and at insert.
     */
    constructor (tableName: string, alias: Option<string>)
      ensures this.tableName == tableName && this.alias == alias
      ensures extraProperties.softDelete == Some("deleted")
      ensures extraProperties.insertFills ==
                [FillSpec("created_at", InstantNow, TimestampSql), FillSpec("updated_at", InstantNow, TimestampSql)]
      ensures extraProperties.updateFills == [FillSpec("updated_at", InstantNow, TimestampSql)]
    {
      this.tableName := tableName;
      this.alias := alias;
      extraProperties := NoProps;
      new;
      var deleted := LogicalDeleted(Column("deleted", BooleanSql));
      var createdAt := FillAtInsert(Column("created_at", TimestampSql), InstantNow);
      var updatedAt := FillAtUpdate(Column("updated_at", TimestampSql), InstantNow);
      updatedAt := FillAtInsert(updatedAt, InstantNow);
    }

    /** Marks `column` as the soft-delete column, replacing any earlier one. */
    method LogicalDeleted(column: Column) returns (c: Column)
      modifies this
      ensures extraProperties == old(extraProperties).(softDelete := Some(column.name))
      ensures c == column
    {
      extraProperties := extraProperties.(softDelete := Some(column.name));
      c := column;
    }

    /** Registers an update fill for `column` after the earlier ones. */
    method FillAtUpdate(column: Column, generateFun: Generator) returns (c: Column)
      modifies this
      ensures extraProperties == old(extraProperties).(updateFills :=
                old(extraProperties.updateFills) + [FillSpec(column.name, generateFun, column.sqlType)])
      ensures c == column
    {
      var updateFills := extraProperties.updateFills;
      extraProperties := extraProperties.(updateFills := updateFills + [FillSpec(column.name, generateFun, column.sqlType)]);
      c := column;
    }

    /** Registers an insert fill for `column` after the earlier ones. */
    method FillAtInsert(column: Column, generateFun: Generator) returns (c: Column)
      modifies this
      ensures extraProperties == old(extraProperties).(insertFills :=
                old(extraProperties.insertFills) + [FillSpec(column.name, generateFun, column.sqlType)])
      ensures c == column
    {
      var insertFills := extraProperties.insertFills;
      extraProperties := extraProperties.(insertFills := insertFills + [FillSpec(column.name, generateFun, column.sqlType)]);
      c := column;
    }

    /** The table node statements refer to, carrying a copy of the directives. */
    function AsExpression(): (t: Table)
      reads this
      ensures t.name == tableName && t.alias == alias && t.props == extraProperties
    {
      Table(tableName, alias, extraProperties)
    }
  }

  // ---------------------------------------------------------------------------
  // Opting out of the soft-delete filter for one statement

  predicate Matches(t: Table, tableName: Option<string>)
  {
    tableName.None? || tableName.value == t.name
  }

  /** The table case of the opt-out: drop the soft-delete key of a matching table, keep everything else. */
  function OptOutTable(t: Table, tableName: Option<string>): (r: Table)
    ensures r.name == t.name && r.alias == t.alias
    ensures r.props.insertFills == t.props.insertFills && r.props.updateFills == t.props.updateFills
    ensures Matches(t, tableName) ==> r.props.softDelete.None?
    ensures !Matches(t, tableName) ==> r == t
  {
    if Matches(t, tableName) then t.(props := t.props.(softDelete := None)) else t
  }

  /** disableLogicalDeletedHelper: the opt-out over a join tree; other sources are left alone. */
  function DisableLogicalDeletedHelper(expression: Source, tableName: Option<string>): (r: Source)
    ensures expression.TableSource? ==> r == TableSource(OptOutTable(expression.table, tableName))
    ensures expression.Join? ==> r.Join? && r.kind == expression.kind && r.condition == expression.condition
    ensures expression.QuerySource? ==> r == expression
  {
    match expression
    case TableSource(t) => TableSource(OptOutTable(t, tableName))
    case Join(kind, left, right, condition) =>
      Join(kind, DisableLogicalDeletedHelper(left, tableName), DisableLogicalDeletedHelper(right, tableName), condition)
    case QuerySource(_) => expression
  }

  /** Query.disableLogicalDeleted: a select gets the opt-out for every table; a union is rejected. */
  function QueryDisableLogicalDeleted(expression: Query): (r: Result<Query>)
    ensures expression.Union? ==> r.Failure?
    ensures expression.SelectQuery? ==>
              && r.Success? && r.value.SelectQuery?
              && r.value.select.where == expression.select.where
              && r.value.select.projection == expression.select.projection
              && r.value.select.from == DisableLogicalDeletedHelper(expression.select.from, None)
  {
    match expression
    case SelectQuery(sel) => Success(SelectQuery(sel.(from := DisableLogicalDeletedHelper(sel.from, None))))
    case Union(_, _, _) => Failure("logical delete is not supported in a union expression.")
  }

  /** EntitySequence.disableLogicalDeleted: the opt-out for the sequence's own source table only. */
  function EntitySequenceDisableLogicalDeleted(expression: Select, sourceTableName: string): (r: Select)
    ensures r.where == expression.where && r.projection == expression.projection
    ensures r.from == DisableLogicalDeletedHelper(expression.from, Some(sourceTableName))
  {
    expression.(from := DisableLogicalDeletedHelper(expression.from, Some(sourceTableName)))
  }

  // ---------------------------------------------------------------------------
  // What the opt-out changes

  /** The tables of a join tree, left to right (not those inside a subquery). */
  function Tables(s: Source): seq<Table>
  {
    match s
    case TableSource(t) => [t]
    case Join(_, left, right, _) => Tables(left) + Tables(right)
    case QuerySource(_) => []
  }

  /** The tree with every table's properties blanked: its shape, join types, conditions and other sources. */
  function Skeleton(s: Source): Source
  {
    match s
    case TableSource(t) => TableSource(t.(props := NoProps))
    case Join(kind, left, right, condition) => Join(kind, Skeleton(left), Skeleton(right), condition)
    case QuerySource(_) => s
  }

  /** Join shape, join types, ON clauses and non-table sources are kept. */
  lemma {:induction false} OptOutKeepsShape(s: Source, tableName: Option<string>)
    ensures Skeleton(DisableLogicalDeletedHelper(s, tableName)) == Skeleton(s)
  {
    match s
    case TableSource(_) =>
    case QuerySource(_) =>
    case Join(_, left, right, _) =>
      OptOutKeepsShape(left, tableName);
      OptOutKeepsShape(right, tableName);
  }

  /** Table by table, the opt-out strips exactly the matching tables. */
  lemma {:induction false} OptOutTables(s: Source, tableName: Option<string>)
    ensures |Tables(DisableLogicalDeletedHelper(s, tableName))| == |Tables(s)|
    ensures forall i :: 0 <= i < |Tables(s)| ==>
              Tables(DisableLogicalDeletedHelper(s, tableName))[i] == OptOutTable(Tables(s)[i], tableName)
  {
    match s
    case TableSource(_) =>
    case QuerySource(_) =>
    case Join(_, left, right, _) =>
      OptOutTables(left, tableName);
      OptOutTables(right, tableName);
      var l := Tables(left);
      var l' := Tables(DisableLogicalDeletedHelper(left, tableName));
      var r' := Tables(DisableLogicalDeletedHelper(right, tableName));
      forall i | 0 <= i < |Tables(s)|
        ensures Tables(DisableLogicalDeletedHelper(s, tableName))[i] == OptOutTable(Tables(s)[i], tableName)
      {
        if i < |l| {
          assert Tables(s)[i] == l[i];
          assert (l' + r')[i] == l'[i];
        } else {
          assert Tables(s)[i] == Tables(right)[i - |l|];
          assert (l' + r')[i] == r'[i - |l|];
        }
      }
  }

  /** Opting out twice is opting out once. */
  lemma {:induction false} OptOutIdempotent(s: Source, tableName: Option<string>)
    ensures DisableLogicalDeletedHelper(DisableLogicalDeletedHelper(s, tableName), tableName) ==
            DisableLogicalDeletedHelper(s, tableName)
  {
    match s
    case TableSource(_) =>
    case QuerySource(_) =>
    case Join(_, left, right, _) =>
      OptOutIdempotent(left, tableName);
      OptOutIdempotent(right, tableName);
  }

  /** After an unnamed opt-out no table of the join tree carries a soft-delete condition. */
  lemma {:induction false} OptOutAllClearsConditions(s: Source)
    ensures LogicalDelete.TableAtoms(DisableLogicalDeletedHelper(s, None)) == multiset{}
  {
    match s
    case TableSource(_) =>
    case QuerySource(_) =>
    case Join(_, left, right, _) =>
      OptOutAllClearsConditions(left);
      OptOutAllClearsConditions(right);
  }

  /** A select opted out with Query.disableLogicalDeleted gains no soft-delete condition at its own level. */
  lemma OptOutSelectGainsNothing(q: Query)
    requires q.SelectQuery?
    ensures var opted := QueryDisableLogicalDeleted(q).value.select;
            var r := LogicalDelete.InterceptSelect(opted);
            && r.where == opted.where
            && LogicalDelete.OnAtoms(r.from) == LogicalDelete.OnAtoms(opted.from)
  {
    var opted := QueryDisableLogicalDeleted(q).value.select;
    OptOutAllClearsConditions(q.select.from);
    LogicalDelete.NoDirectiveNoPlacement(opted.from);
  }

  /**
   * The opt-out stops at a subquery source, while the soft-delete rewrite enters it:
   * after Query.disableLogicalDeleted, a table inside a subquery in FROM is still filtered.
   */
  lemma OptOutLeavesSubqueryFiltered(t: Table, innerWhere: Option<Cond>, innerProjection: seq<string>,
                                     where: Option<Cond>, projection: seq<string>)
    requires t.props.softDelete.Some?
    ensures var inner := SelectQuery(Select(TableSource(t), innerWhere, innerProjection));
            var q := SelectQuery(Select(QuerySource(inner), where, projection));
            var r := LogicalDelete.InterceptSelect(QueryDisableLogicalDeleted(q).value.select);
            && r.where == where
            && r.from.QuerySource? && r.from.query.SelectQuery?
            && AtomsOf(r.from.query.select.where) == AtomsOf(innerWhere) + multiset{EqFalse(t, t.props.softDelete.value)}
  {
  }

  /**
   * Opting out by name on `a LEFT JOIN b`, where `a` is the named table: `a` is no
   * longer filtered (nothing reaches WHERE) while `b` still is, in the ON clause.
   */
  lemma OptOutScopedToNamedTable(a: Table, b: Table, on: Option<Cond>, where: Option<Cond>, projection: seq<string>)
    requires a.props.softDelete.Some? && b.props.softDelete.Some? && a.name != b.name
    ensures var sel := Select(Join(LeftJoin, TableSource(a), TableSource(b), on), where, projection);
            var r := LogicalDelete.InterceptSelect(EntitySequenceDisableLogicalDeleted(sel, a.name));
            && r.where == where
            && r.from.Join?
            && AtomsOf(r.from.condition) == AtomsOf(on) + multiset{EqFalse(b, b.props.softDelete.value)}
  {
    var sel := Select(Join(LeftJoin, TableSource(a), TableSource(b), on), where, projection);
    var opted := EntitySequenceDisableLogicalDeleted(sel, a.name);
    var a' := OptOutTable(a, Some(a.name));
    assert OptOutTable(b, Some(a.name)) == b;
    assert DisableLogicalDeletedHelper(TableSource(a), Some(a.name)) == TableSource(a');
    assert DisableLogicalDeletedHelper(TableSource(b), Some(a.name)) == TableSource(b);
    assert opted.from == Join(LeftJoin, TableSource(a'), TableSource(b), on);
    var cb := LogicalDelete.SoftDeleteCondition(b);
    assert LogicalDelete.SoftDeleteCondition(a').None?;
    assert LogicalDelete.Placement(LeftJoin, None, cb) == (cb, None);
    assert LogicalDelete.InterceptSource(opted.from) ==
           (Join(LeftJoin, TableSource(a'), TableSource(b), LogicalDelete.AndOpt(on, cb)), None);
  }
}
