/**
 * LogicalVisitorInterceptor: adds `column = false` for every table that declares a
 * soft-delete column, placing each such condition in a join's ON clause or in the
 * WHERE clause of the enclosing select according to the join types on the way up.
 */
module LogicalDelete {
  import opened Wrappers
  import opened SqlAst

  /** The nullable `and`: an absent side is the identity, otherwise a conjunction. */
  function AndOpt(a: Option<Cond>, b: Option<Cond>): (r: Option<Cond>)
    ensures a.None? ==> r == b
    ensures b.None? ==> r == a
    ensures a.Some? && b.Some? ==> r == Some(And(a.value, b.value))
    ensures AtomsOf(r) == AtomsOf(a) + AtomsOf(b)
  {
    if a.None? then b
    else if b.None? then a
    else Some(And(a.value, b.value))
  }

  /** buildLogicalDeleteExpression: `c = false` on the table itself when it declares soft-delete column `c`. */
  function SoftDeleteCondition(t: Table): (c: Option<Cond>)
    ensures c.Some? <==> t.props.softDelete.Some?
    ensures c.Some? ==> c.value == EqFalse(t, t.props.softDelete.value) && Atoms(c.value) == multiset{c.value}
  {
    match t.props.softDelete
    case None => None
    case Some(column) => Some(EqFalse(t, column))
  }

  /**
   * The join table: given the pending conditions of the left and right children,
   * the condition added to this join's ON clause and the one passed to the parent.
   * The preserved side of an outer join is never filtered in its ON clause.
   */
  function Placement(kind: JoinType, fromLeft: Option<Cond>, fromRight: Option<Cond>): (p: (Option<Cond>, Option<Cond>))
    ensures kind != FullJoin ==> AtomsOf(p.0) + AtomsOf(p.1) == AtomsOf(fromLeft) + AtomsOf(fromRight)
    ensures kind == LeftJoin ==> p.0 == fromRight && p.1 == fromLeft
    ensures kind == RightJoin ==> p.0 == fromLeft && p.1 == fromRight
    ensures kind == InnerJoin ==> p.1.None? && AtomsOf(p.0) == AtomsOf(fromLeft) + AtomsOf(fromRight)
    ensures kind == CrossJoin ==> p.0.None? && AtomsOf(p.1) == AtomsOf(fromLeft) + AtomsOf(fromRight)
    ensures kind == FullJoin ==> p.0.None? && p.1.None?
  {
    match kind
    case LeftJoin => (fromRight, fromLeft)
    case RightJoin => (fromLeft, fromRight)
    case InnerJoin => (AndOpt(fromLeft, fromRight), None)
    case FullJoin => (None, None)
    case CrossJoin => (None, AndOpt(fromLeft, fromRight))
  }

  /** interceptHelper on a query source: the rewritten source and the condition still to be placed. */
  function InterceptSource(s: Source): (r: (Source, Option<Cond>))
    decreases s
    ensures s.TableSource? ==> r == (s, SoftDeleteCondition(s.table))
    ensures s.QuerySource? ==> r == (QuerySource(InterceptQuery(s.query)), None)
    ensures s.Join? ==> r.0.Join? && r.0.kind == s.kind && r.1 == Placement(s.kind, InterceptSource(s.left).1, InterceptSource(s.right).1).1
  {
    match s
    case TableSource(t) => (s, SoftDeleteCondition(t))
    case Join(kind, left, right, condition) =>
      var (left', fromLeft) := InterceptSource(left);
      var (right', fromRight) := InterceptSource(right);
      var (attached, bubbled) := Placement(kind, fromLeft, fromRight);
      (Join(kind, left', right', AndOpt(condition, attached)), bubbled)
    case QuerySource(q) => (QuerySource(InterceptQuery(q)), None)
  }

  /** interceptHelper on a query: a select is rewritten, a union is left alone. */
  function InterceptQuery(q: Query): (r: Query)
    decreases q
    ensures q.Union? ==> r == q
    ensures q.SelectQuery? ==> r == SelectQuery(InterceptSelect(q.select))
  {
    match q
    case SelectQuery(sel) => SelectQuery(InterceptSelect(sel))
    case Union(_, _, _) => q
  }

  /** interceptHelper on a select: whatever reaches it from FROM is conjoined to WHERE; nothing escapes. */
  function InterceptSelect(sel: Select): (r: Select)
    decreases sel
    ensures r.projection == sel.projection
    ensures r.from == InterceptSource(sel.from).0
    ensures AtomsOf(r.where) == AtomsOf(sel.where) + AtomsOf(InterceptSource(sel.from).1)
    ensures InterceptSource(sel.from).1.None? ==> r.where == sel.where
  {
    var (from', pending) := InterceptSource(sel.from);
    sel.(from := from', where := AndOpt(sel.where, pending))
  }

  /** LogicalVisitorInterceptor.intercept: only select roots change; it never reports "no change". */
  function LogicalIntercept(st: Stmt): (r: Stmt)
    ensures !st.QueryStmt? ==> r == st
    ensures st.QueryStmt? && st.query.Union? ==> r == st
    ensures st.QueryStmt? && st.query.SelectQuery? ==>
              r.QueryStmt? && r.query.SelectQuery? && r.query.select == InterceptSelect(st.query.select)
  {
    match st
    case QueryStmt(q) => QueryStmt(InterceptQuery(q))
    case _ => st
  }

  // ---------------------------------------------------------------------------
  // Where the soft-delete conditions end up

  /** The conjuncts of every ON clause at this query level (subqueries have their own WHERE). */
  function OnAtoms(s: Source): multiset<Cond>
  {
    match s
    case TableSource(_) => multiset{}
    case Join(_, left, right, condition) => AtomsOf(condition) + OnAtoms(left) + OnAtoms(right)
    case QuerySource(_) => multiset{}
  }

  /** The soft-delete condition of every table at this query level. */
  function TableAtoms(s: Source): multiset<Cond>
  {
    match s
    case TableSource(t) => AtomsOf(SoftDeleteCondition(t))
    case Join(_, left, right, _) => TableAtoms(left) + TableAtoms(right)
    case QuerySource(_) => multiset{}
  }

  /** The soft-delete conditions of the tables at this level that are not below a FULL join. */
  function OutsideFullAtoms(s: Source): multiset<Cond>
  {
    match s
    case TableSource(t) => AtomsOf(SoftDeleteCondition(t))
    case Join(kind, left, right, _) =>
      if kind == FullJoin then multiset{} else OutsideFullAtoms(left) + OutsideFullAtoms(right)
    case QuerySource(_) => multiset{}
  }

  predicate NoFullJoin(s: Source)
  {
    match s
    case Join(kind, left, right, _) => kind != FullJoin && NoFullJoin(left) && NoFullJoin(right)
    case _ => true
  }

  /** A rewritten join keeps its type and its rewritten children; only ON changes, and only by conjoining. */
  lemma JoinRewrite(kind: JoinType, left: Source, right: Source, condition: Option<Cond>)
    ensures var (r, _) := InterceptSource(Join(kind, left, right, condition));
            var attached := Placement(kind, InterceptSource(left).1, InterceptSource(right).1).0;
            && r.Join? && r.kind == kind
            && r.left == InterceptSource(left).0 && r.right == InterceptSource(right).0
            && AtomsOf(r.condition) == AtomsOf(condition) + AtomsOf(attached)
            && (attached.None? ==> r.condition == condition)
  {
  }

  /** One join step in terms of its children's results: the ON clause gains `attached`, `bubbled` goes up. */
  lemma JoinStep(kind: JoinType, left: Source, right: Source, condition: Option<Cond>)
    ensures var (l', fromLeft) := InterceptSource(left);
            var (r', fromRight) := InterceptSource(right);
            var (attached, bubbled) := Placement(kind, fromLeft, fromRight);
            var (j, pending) := InterceptSource(Join(kind, left, right, condition));
            && pending == bubbled
            && OnAtoms(j) == AtomsOf(condition) + AtomsOf(attached) + OnAtoms(l') + OnAtoms(r')
  {
  }

  /** Multiset bookkeeping of one join step when the children's results are bounded above. */
  lemma StepBoundedAbove(c: multiset<Cond>, attached: multiset<Cond>, bubbled: multiset<Cond>,
                         l': multiset<Cond>, fromLeft: multiset<Cond>, r': multiset<Cond>, fromRight: multiset<Cond>,
                         l: multiset<Cond>, tl: multiset<Cond>, r: multiset<Cond>, tr: multiset<Cond>)
    requires l' + fromLeft <= l + tl && r' + fromRight <= r + tr
    requires attached + bubbled == fromLeft + fromRight || (attached == multiset{} && bubbled == multiset{})
    ensures c + attached + l' + r' + bubbled <= c + l + r + (tl + tr)
  {
    forall o ensures (c + attached + l' + r' + bubbled)[o] <= (c + l + r + (tl + tr))[o] {
      assert (l' + fromLeft)[o] <= (l + tl)[o];
      assert (r' + fromRight)[o] <= (r + tr)[o];
      assert (attached + bubbled)[o] <= (fromLeft + fromRight)[o];
    }
  }

  /** Multiset bookkeeping of one join step when the children's results are bounded below. */
  lemma StepBoundedBelow(c: multiset<Cond>, attached: multiset<Cond>, bubbled: multiset<Cond>,
                         l': multiset<Cond>, fromLeft: multiset<Cond>, r': multiset<Cond>, fromRight: multiset<Cond>,
                         l: multiset<Cond>, tl: multiset<Cond>, r: multiset<Cond>, tr: multiset<Cond>)
    requires l + tl <= l' + fromLeft && r + tr <= r' + fromRight
    requires attached + bubbled == fromLeft + fromRight
    ensures c + l + r + (tl + tr) <= c + attached + l' + r' + bubbled
  {
    forall o ensures (c + l + r + (tl + tr))[o] <= (c + attached + l' + r' + bubbled)[o] {
      assert (l + tl)[o] <= (l' + fromLeft)[o];
      assert (r + tr)[o] <= (r' + fromRight)[o];
      assert (attached + bubbled)[o] == (fromLeft + fromRight)[o];
    }
  }

  /** Multiset bookkeeping of one join step when the children's results are exact. */
  lemma StepExact(c: multiset<Cond>, attached: multiset<Cond>, bubbled: multiset<Cond>,
                  l': multiset<Cond>, fromLeft: multiset<Cond>, r': multiset<Cond>, fromRight: multiset<Cond>,
                  l: multiset<Cond>, tl: multiset<Cond>, r: multiset<Cond>, tr: multiset<Cond>)
    requires l' + fromLeft == l + tl && r' + fromRight == r + tr
    requires attached + bubbled == fromLeft + fromRight
    ensures c + attached + l' + r' + bubbled == c + l + r + (tl + tr)
  {
    forall o ensures (c + attached + l' + r' + bubbled)[o] == (c + l + r + (tl + tr))[o] {
      assert (l' + fromLeft)[o] == (l + tl)[o];
      assert (r' + fromRight)[o] == (r + tr)[o];
      assert (attached + bubbled)[o] == (fromLeft + fromRight)[o];
    }
  }

  /** Rewriting never removes a conjunct from an ON clause. */
  lemma {:induction false} OnClausesOnlyGrow(s: Source)
    ensures OnAtoms(s) <= OnAtoms(InterceptSource(s).0)
  {
    match s
    case TableSource(_) =>
    case QuerySource(_) =>
    case Join(kind, left, right, condition) =>
      OnClausesOnlyGrow(left);
      OnClausesOnlyGrow(right);
      JoinStep(kind, left, right, condition);
  }

  /**
   * Nothing is duplicated: what the ON clauses and the pending condition hold
   * afterwards is drawn from the original ON clauses and one condition per table.
   */
  lemma {:induction false} PlacedAtMostOnce(s: Source)
    ensures OnAtoms(InterceptSource(s).0) + AtomsOf(InterceptSource(s).1) <= OnAtoms(s) + TableAtoms(s)
  {
    match s
    case TableSource(_) =>
    case QuerySource(_) =>
    case Join(kind, left, right, condition) =>
      PlacedAtMostOnce(left);
      PlacedAtMostOnce(right);
      JoinStep(kind, left, right, condition);
      var (l', fromLeft) := InterceptSource(left);
      var (r', fromRight) := InterceptSource(right);
      var (attached, bubbled) := Placement(kind, fromLeft, fromRight);
      StepBoundedAbove(AtomsOf(condition), AtomsOf(attached), AtomsOf(bubbled),
                       OnAtoms(l'), AtomsOf(fromLeft), OnAtoms(r'), AtomsOf(fromRight),
                       OnAtoms(left), TableAtoms(left), OnAtoms(right), TableAtoms(right));
  }

  /** Every table that is not below a FULL join has its condition placed in an ON clause or pending. */
  lemma {:induction false} PlacedOutsideFull(s: Source)
    ensures OnAtoms(s) + OutsideFullAtoms(s) <= OnAtoms(InterceptSource(s).0) + AtomsOf(InterceptSource(s).1)
  {
    match s
    case TableSource(_) =>
    case QuerySource(_) =>
    case Join(kind, left, right, condition) =>
      JoinStep(kind, left, right, condition);
      var (l', fromLeft) := InterceptSource(left);
      var (r', fromRight) := InterceptSource(right);
      var (attached, bubbled) := Placement(kind, fromLeft, fromRight);
      if kind == FullJoin {
        OnClausesOnlyGrow(left);
        OnClausesOnlyGrow(right);
        StepBoundedBelow(AtomsOf(condition), multiset{}, multiset{},
                         OnAtoms(l'), multiset{}, OnAtoms(r'), multiset{},
                         OnAtoms(left), multiset{}, OnAtoms(right), multiset{});
      } else {
        PlacedOutsideFull(left);
        PlacedOutsideFull(right);
        StepBoundedBelow(AtomsOf(condition), AtomsOf(attached), AtomsOf(bubbled),
                         OnAtoms(l'), AtomsOf(fromLeft), OnAtoms(r'), AtomsOf(fromRight),
                         OnAtoms(left), OutsideFullAtoms(left), OnAtoms(right), OutsideFullAtoms(right));
      }
  }

  /** Without FULL joins every table's condition is placed exactly once. */
  lemma {:induction false} PlacedExactlyOnce(s: Source)
    requires NoFullJoin(s)
    ensures OnAtoms(InterceptSource(s).0) + AtomsOf(InterceptSource(s).1) == OnAtoms(s) + TableAtoms(s)
  {
    match s
    case TableSource(_) =>
    case QuerySource(_) =>
    case Join(kind, left, right, condition) =>
      PlacedExactlyOnce(left);
      PlacedExactlyOnce(right);
      JoinStep(kind, left, right, condition);
      var (l', fromLeft) := InterceptSource(left);
      var (r', fromRight) := InterceptSource(right);
      var (attached, bubbled) := Placement(kind, fromLeft, fromRight);
      StepExact(AtomsOf(condition), AtomsOf(attached), AtomsOf(bubbled),
                OnAtoms(l'), AtomsOf(fromLeft), OnAtoms(r'), AtomsOf(fromRight),
                OnAtoms(left), TableAtoms(left), OnAtoms(right), TableAtoms(right));
  }

  /**
   * At a select, the new WHERE and ON clauses together hold the old ones plus
   * exactly one condition per table of its FROM clause (absent FULL joins).
   */
  lemma SelectPlacesEachTableOnce(sel: Select)
    requires NoFullJoin(sel.from)
    ensures var r := InterceptSelect(sel);
            AtomsOf(r.where) + OnAtoms(r.from) == AtomsOf(sel.where) + OnAtoms(sel.from) + TableAtoms(sel.from)
  {
    PlacedExactlyOnce(sel.from);
    var (from', pending) := InterceptSource(sel.from);
    calc {
      AtomsOf(InterceptSelect(sel).where) + OnAtoms(InterceptSelect(sel).from);
      AtomsOf(sel.where) + (OnAtoms(from') + AtomsOf(pending));
      AtomsOf(sel.where) + (OnAtoms(sel.from) + TableAtoms(sel.from));
    }
  }

  /** Tables without a soft-delete column at this level: nothing pending and no ON clause changes. */
  lemma {:induction false} NoDirectiveNoPlacement(s: Source)
    requires TableAtoms(s) == multiset{}
    ensures InterceptSource(s).1.None?
    ensures OnAtoms(InterceptSource(s).0) == OnAtoms(s)
  {
    match s
    case TableSource(_) =>
    case QuerySource(_) =>
    case Join(kind, left, right, condition) =>
      assert TableAtoms(s) == TableAtoms(left) + TableAtoms(right);
      assert |TableAtoms(left) + TableAtoms(right)| == |TableAtoms(left)| + |TableAtoms(right)| == 0;
      NoDirectiveNoPlacement(left);
      NoDirectiveNoPlacement(right);
      JoinStep(kind, left, right, condition);
      assert Placement(kind, None, None) == (None, None);
  }

  // ---------------------------------------------------------------------------
  // Trees without any soft-delete column come back equal

  predicate NoSoftDeleteSource(s: Source)
    decreases s
  {
    match s
    case TableSource(t) => t.props.softDelete.None?
    case Join(_, left, right, _) => NoSoftDeleteSource(left) && NoSoftDeleteSource(right)
    case QuerySource(q) => NoSoftDeleteQuery(q)
  }

  predicate NoSoftDeleteQuery(q: Query)
    decreases q
  {
    match q
    case SelectQuery(sel) => NoSoftDeleteSource(sel.from)
    case Union(left, right, _) => NoSoftDeleteQuery(left) && NoSoftDeleteQuery(right)
  }

  lemma {:induction false} NoSoftDeleteSourceUnchanged(s: Source)
    requires NoSoftDeleteSource(s)
    ensures InterceptSource(s) == (s, None)
    decreases s
  {
    match s
    case TableSource(_) =>
    case QuerySource(q) => NoSoftDeleteQueryUnchanged(q);
    case Join(kind, left, right, condition) =>
      NoSoftDeleteSourceUnchanged(left);
      NoSoftDeleteSourceUnchanged(right);
  }

  lemma {:induction false} NoSoftDeleteQueryUnchanged(q: Query)
    requires NoSoftDeleteQuery(q)
    ensures InterceptQuery(q) == q
    decreases q
  {
    match q
    case Union(_, _, _) =>
    case SelectQuery(sel) => NoSoftDeleteSourceUnchanged(sel.from);
  }

  /**
   * The rewrite is not idempotent: a second pass over an already rewritten
   * select conjoins the table's condition to WHERE a second time.
   */
  lemma SecondPassDuplicates(t: Table, projection: seq<string>)
    requires t.props.softDelete.Some?
    ensures var once := InterceptSelect(Select(TableSource(t), None, projection));
            var c := EqFalse(t, t.props.softDelete.value);
            && once.where == Some(c)
            && InterceptSelect(once).where == Some(And(c, c))
  {
  }
}
