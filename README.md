# ktorm-interceptors, modelled in Dafny

ktorm-interceptors is a set of rewriters. Each one runs on a finished ktorm statement tree just before it is turned into SQL text. This model covers the parts that carry the logic:

- **Soft-delete filter** (`LogicalDelete`). Every table that declares a soft-delete column gets a `column = false` condition. The condition goes into a join's ON clause or up to the enclosing select's WHERE clause, depending on the join types on the way up. LEFT and RIGHT joins filter their nullable side in ON and pass the preserved side up. INNER conjoins both sides into ON. CROSS passes both up. FULL drops both.
- **Auto-fill of assignments** (`AutoFill`, `InsertAutoFill`). Each fill spec adds an assignment `column = generated value`, unless the statement already assigns that column. Added assignments follow the order in which the specs were registered.
- **Interceptor chain** (`Compositor`). A mutable ordered list of interceptors. The statement passes through each member in turn; a member's `null` means "keep the current tree". The chain answers `null` when the final tree equals the input.
- **Table declaration and opt-out** (`BaseEntity`):
  - `BaseTable` records the rewrite directives in its extra properties as its columns are declared.
  - `disableLogicalDeleted` removes the soft-delete directive from the tables of one statement. On a DSL query it applies to every table of the FROM join tree; on an entity sequence, only to the sequence's own table. Tables inside a subquery used as a source keep their directive.
- **Scenarios** (`Scenarios`). Statements on a `BaseTable` threaded through the chain that the test setup registers.

Statements are values: `SqlAst` holds the datatypes for tables, join trees, selects, unions, inserts, updates and deletes. Conditions that are not soft-delete conditions are opaque. The two classes whose fields the source updates in place are Dafny classes:

- `Compositor.CompositorVisitorInterceptor`, whose `interceptors` field is a `seq`;
- `BaseEntity.BaseTable`, whose `extraProperties` field is reassigned by each declaration method.

The loop of `addAutoFillAssignments` and the loop of the chain's `intercept` are `for` loops. They are proved against the specification functions `AutoFill.AutoFilled` and `Compositor.Thread`.

Soft-delete placement is stated by counting conjuncts: each table's condition is one element of a multiset. Let `TableAtoms(s)` be the multiset of these conditions and `OnAtoms(s)` the conjuncts of all ON clauses. Then:

- the rewritten ON clauses plus the pending condition never hold more than the old ON clauses plus `TableAtoms(s)`;
- they hold at least the conditions of tables not below a FULL join;
- with no FULL join they hold exactly the old ON clauses plus `TableAtoms(s)`. So, at the select level, every table's condition lands once, either in ON or in WHERE.

Behaviour of the code worth noting:

- **The update auto-fill interceptor tests for an insert statement.** So it appends the update fills to inserts and never changes an update statement. `AutoFill.UpdateAutoFillIntercept` states this, and `Scenarios.UpdateThroughDefaultChain` shows that an update leaves the chain unchanged.
- **A FULL join silently drops both sides' conditions.** The code does not reject it; LogicaVisitorlInterceptor.kt:46 only comments that full joins are not supported. `LogicalDelete.PlacedOutsideFull` states what is kept.
- **The opt-out does not reach into subquery sources.** The doc comment at BaseEntity.kt:117-121 promises to remove the directive from all table expressions. The helper, however, returns every source that is neither a table nor a join unchanged (BaseEntity.kt:142). The soft-delete rewrite does enter a subquery in FROM, so after `Query.disableLogicalDeleted` the tables inside that subquery are still filtered. `BaseEntity.OptOutLeavesSubqueryFiltered` shows this on a select over a subquery over one soft-deleted table.
- **"Unchanged" means value equality (`==`), not node identity.** The code compares with `==`: the auto-fill interceptors compare assignment lists, and the chain compares final and initial trees.

## Model

| member | source | states |
|---|---|---|
| LogicalDelete.AndOpt | app/src/main/kotlin/io/github/qumn/interceptor/LogicaVisitorlInterceptor.kt:73-81 | an absent side is the identity; two present sides are conjoined; the conjuncts of the result are those of both sides |
| LogicalDelete.SoftDeleteCondition | app/src/main/kotlin/io/github/qumn/interceptor/LogicaVisitorlInterceptor.kt:61-71 | a condition exists exactly when the table declares a soft-delete column, and then it is `column = false` on that table |
| LogicalDelete.Placement | app/src/main/kotlin/io/github/qumn/interceptor/LogicaVisitorlInterceptor.kt:42-48 | per join type: LEFT puts the right side's condition in ON and passes the left side's up; RIGHT is the mirror; INNER puts both in ON and passes nothing; CROSS passes both; FULL keeps neither; except for FULL, nothing is lost or duplicated |
| LogicalDelete.InterceptSource | app/src/main/kotlin/io/github/qumn/interceptor/LogicaVisitorlInterceptor.kt:16-58 | a table node comes back unchanged with its soft-delete condition pending; a subquery source is rewritten in place with nothing pending; a join keeps its type and passes up what the join table bubbles (what its ON clause gains: JoinRewrite; conservation: PlacedAtMostOnce, PlacedOutsideFull, PlacedExactlyOnce) |
| LogicalDelete.InterceptQuery | app/src/main/kotlin/io/github/qumn/interceptor/LogicaVisitorlInterceptor.kt:19-57 | a union is returned unchanged; a select is rewritten as InterceptSelect rewrites it |
| LogicalDelete.InterceptSelect | app/src/main/kotlin/io/github/qumn/interceptor/LogicaVisitorlInterceptor.kt:20-28 | projection kept; FROM is the rewritten source; WHERE gains exactly the pending condition of FROM and is unchanged when there is none |
| LogicalDelete.LogicalIntercept | app/src/main/kotlin/io/github/qumn/interceptor/LogicaVisitorlInterceptor.kt:10-13 | insert, update, delete and union roots are returned unchanged; a select root is rewritten by InterceptSelect |
| LogicalDelete.JoinRewrite | app/src/main/kotlin/io/github/qumn/interceptor/LogicaVisitorlInterceptor.kt:50-53 | a rewritten join keeps its type and its rewritten children; its ON clause gains exactly the attached condition and is unchanged when none is attached |
| LogicalDelete.JoinStep | app/src/main/kotlin/io/github/qumn/interceptor/LogicaVisitorlInterceptor.kt:36-53 | a join passes up the condition the join table bubbles; its ON conjuncts are the old ones, the attached ones and the children's |
| LogicalDelete.OnClausesOnlyGrow | app/src/main/kotlin/io/github/qumn/interceptor/LogicaVisitorlInterceptor.kt:51 | no ON conjunct is ever removed |
| LogicalDelete.PlacedAtMostOnce | app/src/main/kotlin/io/github/qumn/interceptor/LogicaVisitorlInterceptor.kt:36-53 | rewritten ON conjuncts plus the pending condition are at most the old ON conjuncts plus each table's condition once |
| LogicalDelete.PlacedOutsideFull | app/src/main/kotlin/io/github/qumn/interceptor/LogicaVisitorlInterceptor.kt:46 | the condition of every table not below a FULL join is placed in ON or passed up |
| LogicalDelete.PlacedExactlyOnce | app/src/main/kotlin/io/github/qumn/interceptor/LogicaVisitorlInterceptor.kt:42-48 | without FULL joins, every table's condition is placed exactly once, in ON or pending |
| LogicalDelete.SelectPlacesEachTableOnce | app/src/main/kotlin/io/github/qumn/interceptor/LogicaVisitorlInterceptor.kt:20-28 | at the select level (no FULL join), WHERE plus ON conjuncts are the old ones plus every table's condition exactly once |
| LogicalDelete.NoDirectiveNoPlacement | app/src/main/kotlin/io/github/qumn/interceptor/LogicaVisitorlInterceptor.kt:64 | when no table at this level declares a soft-delete column, nothing is pending and the ON conjuncts are unchanged |
| LogicalDelete.NoSoftDeleteSourceUnchanged | app/src/main/kotlin/io/github/qumn/interceptor/LogicaVisitorlInterceptor.kt:31-34 | a source tree with no soft-delete directive anywhere, subqueries included, is returned equal, with nothing pending |
| LogicalDelete.NoSoftDeleteQueryUnchanged | app/src/main/kotlin/io/github/qumn/interceptor/LogicaVisitorlInterceptor.kt:20-28 | a query with no soft-delete directive anywhere is returned equal |
| LogicalDelete.SecondPassDuplicates | app/src/main/kotlin/io/github/qumn/interceptor/LogicaVisitorlInterceptor.kt:10 | the rewrite is not idempotent: a second pass over a filtered select conjoins the same condition again |
| AutoFill.MissingPicksFirst | app/src/main/kotlin/io/github/qumn/interceptor/UpdateAutoFillVisitorInterceptor.kt:30-31 | every chosen spec has an untaken column and is the first spec registered for that column |
| AutoFill.AutoFillAppendsFirstSpecs | app/src/main/kotlin/io/github/qumn/interceptor/UpdateAutoFillVisitorInterceptor.kt:30-39 | every appended assignment is the generated assignment (column, generated value, SQL type) of a spec whose column the input does not assign, and that spec is the first registered for its column |
| AutoFill.MissingColumns | app/src/main/kotlin/io/github/qumn/interceptor/UpdateAutoFillVisitorInterceptor.kt:30-31 | the specs chosen for filling cover exactly the spec columns not already taken |
| AutoFill.MissingFresh | app/src/main/kotlin/io/github/qumn/interceptor/UpdateAutoFillVisitorInterceptor.kt:31 | no chosen spec targets a taken column, and no two chosen specs target the same column |
| AutoFill.MissingLength | app/src/main/kotlin/io/github/qumn/interceptor/UpdateAutoFillVisitorInterceptor.kt:30-31 | as many specs are chosen as there are distinct untaken spec columns |
| AutoFill.MissingInOrder | app/src/main/kotlin/io/github/qumn/interceptor/UpdateAutoFillVisitorInterceptor.kt:30 | chosen specs keep their registration order |
| AutoFill.AutoFillStep | app/src/main/kotlin/io/github/qumn/interceptor/UpdateAutoFillVisitorInterceptor.kt:31-39 | one more spec appends its assignment exactly when its column is not yet assigned |
| AutoFill.AutoFillColumns | app/src/main/kotlin/io/github/qumn/interceptor/UpdateAutoFillVisitorInterceptor.kt:24-42 | afterwards the assigned columns are the input's plus every spec column, and no other |
| AutoFill.AutoFillAppendsFresh | app/src/main/kotlin/io/github/qumn/interceptor/UpdateAutoFillVisitorInterceptor.kt:31 | every appended assignment targets a column the input did not assign, and no two appended ones share a column |
| AutoFill.AutoFillDistinct | app/src/main/kotlin/io/github/qumn/interceptor/UpdateAutoFillVisitorInterceptor.kt:24-42 | an input with distinct columns gives an output with distinct columns |
| AutoFill.AutoFillLength | app/src/main/kotlin/io/github/qumn/interceptor/UpdateAutoFillVisitorInterceptor.kt:24-42 | the list grows by the number of distinct spec columns the input leaves unassigned |
| AutoFill.AutoFillUnchangedIff | app/src/main/kotlin/io/github/qumn/interceptor/UpdateAutoFillVisitorInterceptor.kt:16-17 | the list comes back equal exactly when every spec column is already assigned |
| AutoFill.AddAutoFillAssignments | app/src/main/kotlin/io/github/qumn/interceptor/UpdateAutoFillVisitorInterceptor.kt:24-42 | the loop yields the auto-filled list: the input unchanged as a prefix, and the assigned columns are the input's plus every spec column |
| AutoFill.FillIntercept | app/src/main/kotlin/io/github/qumn/interceptor/UpdateAutoFillVisitorInterceptor.kt:7-21 | only inserts are touched; "no change" exactly when every spec column is already assigned; otherwise the same table with the auto-filled, strictly longer list |
| AutoFill.UpdateAutoFillIntercept | app/src/main/kotlin/io/github/qumn/interceptor/UpdateAutoFillVisitorInterceptor.kt:8-12 | an update statement is never changed; an insert gets the table's update fills; "no change" exactly when those columns are all assigned |
| InsertAutoFill.InsertAutoFillIntercept | app/src/main/kotlin/io/github/qumn/interceptor/InsertAutoFillVisitorInterceptor.kt:10-24 | only inserts are touched; no insert fills means no change; "no change" exactly when every insert-fill column is assigned; otherwise the same table with the auto-filled list |
| InsertAutoFill.ExplicitAssignmentWins | app/src/main/kotlin/io/github/qumn/interceptor/UpdateAutoFillVisitorInterceptor.kt:31 | a column the insert already assigns keeps its explicit assignment and gets no generated one |
| Compositor.RemoveFirst | app/src/main/kotlin/io/github/qumn/interceptor/CompositorVisitorInterceptor.kt:24 | the first member with that identity is dropped and the rest keep their order; without such a member the list is unchanged |
| Compositor.CompositorVisitorInterceptor.constructor | app/src/main/kotlin/io/github/qumn/interceptor/CompositorVisitorInterceptor.kt:8 | a new chain is empty |
| Compositor.CompositorVisitorInterceptor.Register | app/src/main/kotlin/io/github/qumn/interceptor/CompositorVisitorInterceptor.kt:18-21 | appends the member and returns the same chain |
| Compositor.CompositorVisitorInterceptor.Remove | app/src/main/kotlin/io/github/qumn/interceptor/CompositorVisitorInterceptor.kt:23-25 | the list becomes RemoveFirst of the old list |
| Compositor.CompositorVisitorInterceptor.Intercept | app/src/main/kotlin/io/github/qumn/interceptor/CompositorVisitorInterceptor.kt:10-16 | the loop threads the tree through every member in order, a "no change" keeping the current tree; the result is "no change" exactly when the final tree equals the input, otherwise the final tree; an empty chain always says "no change" |
| Compositor.ThreadAppend | app/src/main/kotlin/io/github/qumn/interceptor/CompositorVisitorInterceptor.kt:12-14 | threading through a concatenation is threading through the first part and then the second |
| Compositor.NoChangeMemberIsNeutral | app/src/main/kotlin/io/github/qumn/interceptor/CompositorVisitorInterceptor.kt:13 | a member that always answers "no change" can be inserted anywhere in the chain without effect |
| BaseEntity.BaseTable.constructor | app/src/main/kotlin/io/github/qumn/base/BaseEntity.kt:49-52 | a new table has `deleted` as soft-delete column, insert fills `created_at` then `updated_at`, and update fill `updated_at`, all timestamps generated from the clock |
| BaseEntity.BaseTable.LogicalDeleted | app/src/main/kotlin/io/github/qumn/base/BaseEntity.kt:54-59 | the soft-delete column becomes this column's name; the fills are unchanged; the column is returned |
| BaseEntity.BaseTable.FillAtUpdate | app/src/main/kotlin/io/github/qumn/base/BaseEntity.kt:62-72 | a spec for this column is appended after the earlier update fills; nothing else changes; the column is returned |
| BaseEntity.BaseTable.FillAtInsert | app/src/main/kotlin/io/github/qumn/base/BaseEntity.kt:74-83 | a spec for this column is appended after the earlier insert fills; nothing else changes; the column is returned |
| BaseEntity.BaseTable.AsExpression | app/src/main/kotlin/io/github/qumn/base/BaseEntity.kt:85-87 | the table node carries the table's name, alias and current directives |
| BaseEntity.DisableLogicalDeletedHelper | app/src/main/kotlin/io/github/qumn/base/BaseEntity.kt:122-144 | a table node gets OptOutTable; a join keeps its type and ON clause and recurses into both sides; any other source is unchanged (whole-tree effect: OptOutTables, OptOutKeepsShape, OptOutIdempotent) |
| BaseEntity.OptOutTable | app/src/main/kotlin/io/github/qumn/base/BaseEntity.kt:124-133 | a matching table loses its soft-delete column and keeps name, alias and fills; a non-matching table is unchanged |
| BaseEntity.QueryDisableLogicalDeleted | app/src/main/kotlin/io/github/qumn/base/BaseEntity.kt:104-115 | a union is rejected with an error; a select keeps WHERE and projection, and every table of its FROM join tree gets the opt-out; tables inside a subquery source keep their directive |
| BaseEntity.OptOutLeavesSubqueryFiltered | app/src/main/kotlin/io/github/qumn/base/BaseEntity.kt:117-144 | after the DSL opt-out of a select whose FROM is a subquery over a soft-deleted table, the subquery's WHERE still gains that table's `column = false` condition and the outer WHERE is unchanged |
| BaseEntity.EntitySequenceDisableLogicalDeleted | app/src/main/kotlin/io/github/qumn/base/BaseEntity.kt:91-100 | WHERE and projection are kept; FROM gets the opt-out for the sequence's own table name only |
| BaseEntity.OptOutKeepsShape | app/src/main/kotlin/io/github/qumn/base/BaseEntity.kt:135-142 | join shape, join types, ON clauses and subquery sources are kept |
| BaseEntity.OptOutTables | app/src/main/kotlin/io/github/qumn/base/BaseEntity.kt:122-144 | table by table, left to right, exactly the matching tables lose their soft-delete column |
| BaseEntity.OptOutIdempotent | app/src/main/kotlin/io/github/qumn/base/BaseEntity.kt:122-144 | opting out twice is the same as opting out once |
| BaseEntity.OptOutAllClearsConditions | app/src/main/kotlin/io/github/qumn/base/BaseEntity.kt:125-128 | after an unnamed opt-out, no table of the join tree has a soft-delete condition |
| BaseEntity.OptOutSelectGainsNothing | app/src/main/kotlin/io/github/qumn/base/BaseEntity.kt:104-115 | after Query.disableLogicalDeleted, the soft-delete rewrite adds nothing to the select's WHERE or ON clauses |
| BaseEntity.OptOutScopedToNamedTable | app/src/main/kotlin/io/github/qumn/base/BaseEntity.kt:91-100 | on `a LEFT JOIN b` opted out for `a`, WHERE stays unchanged while `b`'s condition is still added to the ON clause |
| Scenarios.DefaultChain | app/src/test/kotlin/io/github/qumn/BaseTest.kt:28-31 | the chain holds the soft-delete, update-fill and insert-fill members, in that order |
| Scenarios.InsertThroughDefaultChain | app/src/main/kotlin/io/github/qumn/base/BaseEntity.kt:50-52 | an insert into a BaseTable without timestamps gains `updated_at` (from the update-fill member) and then `created_at`, after the explicit assignments |
| Scenarios.UpdateThroughDefaultChain | app/src/main/kotlin/io/github/qumn/interceptor/UpdateAutoFillVisitorInterceptor.kt:8-10 | an update statement on a BaseTable leaves the chain unchanged |
| Scenarios.SelectThroughDefaultChain | app/src/main/kotlin/io/github/qumn/base/BaseEntity.kt:49 | a select over one BaseTable gains `deleted = false` as its WHERE clause |
| Scenarios.OptedOutSelectThroughDefaultChain | app/src/main/kotlin/io/github/qumn/base/BaseEntity.kt:104-115 | the same select after Query.disableLogicalDeleted leaves the chain unchanged |

## Left out

- The ktorm visitor protocol is not part of this model: the `visitor` argument and the interceptor-wrapped visitor that the dialect's formatter builds (Postgresql.kt:34, `createExpressionVisitor(...).visit(expr)`). That visitor offers every child node to the chain again when the chain answers `null` for its parent. The model threads only the statement root through the chain. So it does not capture that nested selects the soft-delete fold does not reach (a select inside a WHERE condition, or the branches of a union used as a source) are filtered only when the root came back unchanged.
- Generated values are a function `generate` of the fill spec, supplied by the caller. The clock (`Instant.now()`) and any other generator are not modelled, so values taken at different times are not distinguished.
- An assignment records only the column name, value and SQL type. Its column's table reference is not modelled. As in the source, assignments are matched by column name only.
- Interceptor identity is an `id` field, and `Compositor.RemoveFirst` compares ids. Kotlin compares interceptor objects with `equals`, which for these classes is reference identity.
- Trees are compared by value, as the source's `==` does; node identity is not modelled.
- The entity-class key of the extra properties is not modelled. Neither are the `uid` / `dept_id` columns and the `bindTo` entity binding. The rewriters do not read them.
- Catalog and schema names of a table are not modelled; the rewriters do not read them.
- Delete statements are never changed by any member, which matches the code. Soft-delete is not turned into an update.
- Scalar expressions and conditions other than the soft-delete conditions are opaque values.
- Database access, logging and the test fixtures' SQL scripts are not modelled.
