/**
 * addAutoFillAssignments and UpdateAutoFillVisitorInterceptor: append
 * `column = generated value` for every registered fill spec whose column the
 * statement does not assign yet.
 */
module AutoFill {
  import opened Wrappers
  import opened SqlAst

  /** The assignment appended for spec `f`: its column set to what its generator returned. */
  function FillAssignment(f: FillSpec, generate: FillSpec -> Value): Assignment
  {
    Assignment(f.columnName, Argument(generate(f), f.sqlType))
  }

  function Generated(specs: seq<FillSpec>, generate: FillSpec -> Value): (r: seq<Assignment>)
    ensures |r| == |specs|
  {
    seq(|specs|, i requires 0 <= i < |specs| => FillAssignment(specs[i], generate))
  }

  /** The specs that get an assignment, in spec order: the first spec of each column not in `taken`. */
  function Missing(fills: seq<FillSpec>, taken: set<string>): seq<FillSpec>
    decreases |fills|
  {
    if fills == [] then []
    else if fills[0].columnName in taken then Missing(fills[1..], taken)
    else [fills[0]] + Missing(fills[1..], taken + {fills[0].columnName})
  }

  /** The list addAutoFillAssignments returns. */
  function AutoFilled(assignments: seq<Assignment>, fills: seq<FillSpec>, generate: FillSpec -> Value): seq<Assignment>
  {
    assignments + Generated(Missing(fills, ColumnsOf(assignments)), generate)
  }

  predicate DistinctColumns(a: seq<Assignment>)
  {
    forall i, j :: 0 <= i < j < |a| ==> a[i].column != a[j].column
  }

  /** `sub` is `s` with some elements left out, the others kept in order. */
  predicate IsSubsequence(sub: seq<FillSpec>, s: seq<FillSpec>)
    decreases |s|
  {
    if sub == [] then true
    else if s == [] then false
    else (sub[0] == s[0] && IsSubsequence(sub[1..], s[1..])) || IsSubsequence(sub, s[1..])
  }

  /** No spec before position `i` targets the column of `fills[i]`. */
  predicate FirstForColumn(fills: seq<FillSpec>, i: int)
    requires 0 <= i < |fills|
  {
    forall k :: 0 <= k < i ==> fills[k].columnName != fills[i].columnName
  }

  // ---------------------------------------------------------------------------
  // Facts about the specs that get an assignment

  lemma SpecColumnsCons(fills: seq<FillSpec>)
    requires fills != []
    ensures SpecColumns(fills) == {fills[0].columnName} + SpecColumns(fills[1..])
  {
    assert forall f :: f in fills <==> f == fills[0] || f in fills[1..];
  }

  /** Scanning one more spec appends it exactly when its column is neither taken nor met before. */
  lemma {:induction false} MissingSnoc(xs: seq<FillSpec>, x: FillSpec, taken: set<string>)
    ensures Missing(xs + [x], taken) ==
            Missing(xs, taken) + (if x.columnName in taken + SpecColumns(xs) then [] else [x])
    decreases |xs|
  {
    if xs == [] {
      assert [x][1..] == [];
    } else {
      var y := xs[0];
      assert (xs + [x])[0] == y;
      assert (xs + [x])[1..] == xs[1..] + [x];
      SpecColumnsCons(xs);
      if y.columnName in taken {
        MissingSnoc(xs[1..], x, taken);
      } else {
        MissingSnoc(xs[1..], x, taken + {y.columnName});
      }
    }
  }

  /** The specs that get an assignment cover exactly the spec columns not taken. */
  lemma {:induction false} MissingColumns(fills: seq<FillSpec>, taken: set<string>)
    ensures SpecColumns(Missing(fills, taken)) == SpecColumns(fills) - taken
    decreases |fills|
  {
    if fills != [] {
      var y := fills[0];
      SpecColumnsCons(fills);
      if y.columnName in taken {
        MissingColumns(fills[1..], taken);
      } else {
        MissingColumns(fills[1..], taken + {y.columnName});
        SpecColumnsCons(Missing(fills, taken));
      }
    }
  }

  /** No chosen spec targets a taken column, and no two target the same column. */
  lemma {:induction false} MissingFresh(fills: seq<FillSpec>, taken: set<string>)
    ensures forall i :: 0 <= i < |Missing(fills, taken)| ==> Missing(fills, taken)[i].columnName !in taken
    ensures forall i, j :: 0 <= i < j < |Missing(fills, taken)| ==>
              Missing(fills, taken)[i].columnName != Missing(fills, taken)[j].columnName
    decreases |fills|
  {
    if fills != [] {
      var y := fills[0];
      if y.columnName in taken {
        MissingFresh(fills[1..], taken);
        assert Missing(fills, taken) == Missing(fills[1..], taken);
      } else {
        var taken' := taken + {y.columnName};
        MissingFresh(fills[1..], taken');
        var rest := Missing(fills[1..], taken');
        var m := Missing(fills, taken);
        assert m == [y] + rest;
        forall i | 0 <= i < |m| ensures m[i].columnName !in taken {
          if i > 0 { assert m[i] == rest[i - 1]; }
        }
        forall i, j | 0 <= i < j < |m| ensures m[i].columnName != m[j].columnName {
          assert m[j] == rest[j - 1];
          if i > 0 { assert m[i] == rest[i - 1]; }
        }
      }
    }
  }

  /** Set bookkeeping of one step of Missing when the head's column is already taken. */
  lemma UntakenSkip(all: set<string>, rest: set<string>, taken: set<string>, y: string)
    requires all == {y} + rest && y in taken
    ensures all - taken == rest - taken
  {
  }

  /** Set bookkeeping of one step of Missing when the head's column is chosen. */
  lemma UntakenChoose(all: set<string>, rest: set<string>, taken: set<string>, y: string)
    requires all == {y} + rest && y !in taken
    ensures |all - taken| == |rest - (taken + {y})| + 1
  {
    var d := rest - (taken + {y});
    assert all - taken == d + {y};
    assert y !in d;
  }

  /** As many specs are chosen as there are distinct spec columns not taken. */
  lemma {:induction false} MissingLength(fills: seq<FillSpec>, taken: set<string>)
    ensures |Missing(fills, taken)| == |SpecColumns(fills) - taken|
    decreases |fills|
  {
    if fills != [] {
      var y := fills[0];
      SpecColumnsCons(fills);
      if y.columnName in taken {
        MissingLength(fills[1..], taken);
        UntakenSkip(SpecColumns(fills), SpecColumns(fills[1..]), taken, y.columnName);
      } else {
        var taken' := taken + {y.columnName};
        MissingLength(fills[1..], taken');
        UntakenChoose(SpecColumns(fills), SpecColumns(fills[1..]), taken, y.columnName);
        assert Missing(fills, taken) == [y] + Missing(fills[1..], taken');
      }
    }
  }

  /** `f` is the spec at some position `i` whose column is not taken and is registered there for the first time. */
  predicate ChosenFirst(f: FillSpec, fills: seq<FillSpec>, taken: set<string>)
  {
    exists i :: 0 <= i < |fills| && fills[i] == f && f.columnName !in taken && FirstForColumn(fills, i)
  }

  /** A spec chosen from the tail, against a larger taken set that holds the head's column, is chosen from the whole list. */
  lemma ChosenFirstTail(f: FillSpec, fills: seq<FillSpec>, taken: set<string>, taken': set<string>)
    requires fills != [] && taken <= taken' && fills[0].columnName in taken'
    requires ChosenFirst(f, fills[1..], taken')
    ensures ChosenFirst(f, fills, taken)
  {
    var i' :| 0 <= i' < |fills[1..]| && fills[1..][i'] == f && f.columnName !in taken' && FirstForColumn(fills[1..], i');
    assert fills[i' + 1] == f;
    forall k | 0 <= k < i' + 1 ensures fills[k].columnName != fills[i' + 1].columnName {
      if k > 0 { assert fills[k] == fills[1..][k - 1]; }
    }
    assert FirstForColumn(fills, i' + 1);
  }

  /** Every chosen spec is the first registered for its column, and that column is not taken. */
  lemma {:induction false} MissingPicksFirst(fills: seq<FillSpec>, taken: set<string>)
    ensures forall j :: 0 <= j < |Missing(fills, taken)| ==> ChosenFirst(Missing(fills, taken)[j], fills, taken)
    decreases |fills|
  {
    if fills == [] {
      assert Missing(fills, taken) == [];
    } else {
      var y := fills[0];
      if y.columnName in taken {
        MissingPicksFirst(fills[1..], taken);
        var rest := Missing(fills[1..], taken);
        assert Missing(fills, taken) == rest;
        forall j | 0 <= j < |rest| ensures ChosenFirst(rest[j], fills, taken) {
          ChosenFirstTail(rest[j], fills, taken, taken);
        }
      } else {
        var taken' := taken + {y.columnName};
        MissingPicksFirst(fills[1..], taken');
        var rest := Missing(fills[1..], taken');
        var m := [y] + rest;
        assert Missing(fills, taken) == m;
        forall j | 0 <= j < |m| ensures ChosenFirst(m[j], fills, taken) {
          if j == 0 {
            assert fills[0] == m[0] && FirstForColumn(fills, 0);
          } else {
            assert m[j] == rest[j - 1];
            ChosenFirstTail(rest[j - 1], fills, taken, taken');
          }
        }
      }
    }
  }

  /** The chosen specs keep the order in which they were registered. */
  lemma {:induction false} MissingInOrder(fills: seq<FillSpec>, taken: set<string>)
    ensures IsSubsequence(Missing(fills, taken), fills)
    decreases |fills|
  {
    if fills != [] {
      var y := fills[0];
      if y.columnName in taken {
        MissingInOrder(fills[1..], taken);
        SubsequenceOfTail(Missing(fills[1..], taken), fills);
      } else {
        MissingInOrder(fills[1..], taken + {y.columnName});
        var m := Missing(fills, taken);
        assert m[0] == fills[0] && m[1..] == Missing(fills[1..], taken + {y.columnName});
      }
    }
  }

  lemma SubsequenceOfTail(sub: seq<FillSpec>, s: seq<FillSpec>)
    requires s != [] && IsSubsequence(sub, s[1..])
    ensures IsSubsequence(sub, s)
  {
  }

  // ---------------------------------------------------------------------------
  // Facts about addAutoFillAssignments

  lemma GeneratedSnoc(specs: seq<FillSpec>, x: FillSpec, generate: FillSpec -> Value)
    ensures Generated(specs + [x], generate) == Generated(specs, generate) + [FillAssignment(x, generate)]
  {
  }

  lemma ColumnsOfAppend(a: seq<Assignment>, b: seq<Assignment>)
    ensures ColumnsOf(a + b) == ColumnsOf(a) + ColumnsOf(b)
  {
    assert forall x :: x in a + b <==> x in a || x in b;
  }

  lemma GeneratedColumns(specs: seq<FillSpec>, generate: FillSpec -> Value)
    ensures ColumnsOf(Generated(specs, generate)) == SpecColumns(specs)
  {
    var g := Generated(specs, generate);
    forall c | c in SpecColumns(specs) ensures c in ColumnsOf(g) {
      var i :| 0 <= i < |specs| && specs[i].columnName == c;
      assert g[i].column == c;
    }
    forall c | c in ColumnsOf(g) ensures c in SpecColumns(specs) {
      var i :| 0 <= i < |g| && g[i].column == c;
      assert specs[i] in specs;
    }
  }

  /** Afterwards every spec column is assigned, and no other column was added. */
  lemma AutoFillColumns(a: seq<Assignment>, fills: seq<FillSpec>, generate: FillSpec -> Value)
    ensures ColumnsOf(AutoFilled(a, fills, generate)) == ColumnsOf(a) + SpecColumns(fills)
  {
    var m := Missing(fills, ColumnsOf(a));
    ColumnsOfAppend(a, Generated(m, generate));
    GeneratedColumns(m, generate);
    MissingColumns(fills, ColumnsOf(a));
  }

  /**
   * One iteration of the source's loop: the next spec is appended exactly when
   * its column is not among the assignments accumulated so far.
   */
  lemma AutoFillStep(a: seq<Assignment>, xs: seq<FillSpec>, x: FillSpec, generate: FillSpec -> Value)
    ensures var before := AutoFilled(a, xs, generate);
            AutoFilled(a, xs + [x], generate) ==
              if x.columnName in ColumnsOf(before) then before else before + [FillAssignment(x, generate)]
  {
    MissingSnoc(xs, x, ColumnsOf(a));
    AutoFillColumns(a, xs, generate);
    var m := Missing(xs, ColumnsOf(a));
    GeneratedSnoc(m, x, generate);
  }

  /**
   * Explicit assignments win: every appended assignment targets a column the input
   * did not assign and that no other appended assignment targets.
   */
  lemma AutoFillAppendsFresh(a: seq<Assignment>, fills: seq<FillSpec>, generate: FillSpec -> Value)
    ensures forall j :: |a| <= j < |AutoFilled(a, fills, generate)| ==>
              AutoFilled(a, fills, generate)[j].column !in ColumnsOf(a)
    ensures forall i, j :: |a| <= i < j < |AutoFilled(a, fills, generate)| ==>
              AutoFilled(a, fills, generate)[i].column != AutoFilled(a, fills, generate)[j].column
  {
    var m := Missing(fills, ColumnsOf(a));
    var r := AutoFilled(a, fills, generate);
    MissingFresh(fills, ColumnsOf(a));
    forall j | |a| <= j < |r| ensures r[j].column == m[j - |a|].columnName {
      assert r[j] == Generated(m, generate)[j - |a|];
    }
  }

  /** `x` is the generated assignment of a spec chosen first for its untaken column. */
  predicate GeneratedFromFirst(x: Assignment, fills: seq<FillSpec>, taken: set<string>, generate: FillSpec -> Value)
  {
    exists i :: && 0 <= i < |fills| && x == FillAssignment(fills[i], generate)
                && fills[i].columnName !in taken && FirstForColumn(fills, i)
  }

  lemma ChosenFirstGenerated(f: FillSpec, fills: seq<FillSpec>, taken: set<string>, generate: FillSpec -> Value)
    requires ChosenFirst(f, fills, taken)
    ensures GeneratedFromFirst(FillAssignment(f, generate), fills, taken, generate)
  {
    var i :| 0 <= i < |fills| && fills[i] == f && f.columnName !in taken && FirstForColumn(fills, i);
    assert FillAssignment(f, generate) == FillAssignment(fills[i], generate);
  }

  /**
   * What is appended: each new assignment is the generated assignment of a spec
   * whose column the input does not assign, and that spec is the first one
   * registered for its column.
   */
  lemma AutoFillAppendsFirstSpecs(a: seq<Assignment>, fills: seq<FillSpec>, generate: FillSpec -> Value)
    ensures forall j :: |a| <= j < |AutoFilled(a, fills, generate)| ==>
              GeneratedFromFirst(AutoFilled(a, fills, generate)[j], fills, ColumnsOf(a), generate)
  {
    var m := Missing(fills, ColumnsOf(a));
    var r := AutoFilled(a, fills, generate);
    MissingPicksFirst(fills, ColumnsOf(a));
    forall j | |a| <= j < |r| ensures GeneratedFromFirst(r[j], fills, ColumnsOf(a), generate) {
      assert r[j] == Generated(m, generate)[j - |a|] == FillAssignment(m[j - |a|], generate);
      ChosenFirstGenerated(m[j - |a|], fills, ColumnsOf(a), generate);
    }
  }

  /** Distinct input columns give distinct output columns. */
  lemma AutoFillDistinct(a: seq<Assignment>, fills: seq<FillSpec>, generate: FillSpec -> Value)
    requires DistinctColumns(a)
    ensures DistinctColumns(AutoFilled(a, fills, generate))
  {
    var r := AutoFilled(a, fills, generate);
    AutoFillAppendsFresh(a, fills, generate);
    forall i, j | 0 <= i < j < |r| ensures r[i].column != r[j].column {
      if j >= |a| && i < |a| {
        assert r[i] in a;
      }
    }
  }

  /** The output grows by the number of distinct spec columns the input leaves unassigned. */
  lemma AutoFillLength(a: seq<Assignment>, fills: seq<FillSpec>, generate: FillSpec -> Value)
    ensures |AutoFilled(a, fills, generate)| == |a| + |SpecColumns(fills) - ColumnsOf(a)|
  {
    MissingLength(fills, ColumnsOf(a));
  }

  /** The list comes back equal exactly when every spec column is already assigned. */
  lemma AutoFillUnchangedIff(a: seq<Assignment>, fills: seq<FillSpec>, generate: FillSpec -> Value)
    ensures AutoFilled(a, fills, generate) == a <==> SpecColumns(fills) <= ColumnsOf(a)
  {
    AutoFillLength(a, fills, generate);
    var d := SpecColumns(fills) - ColumnsOf(a);
    if d != {} {
      var c :| c in d;
      assert |d| > 0;
      assert !(SpecColumns(fills) <= ColumnsOf(a));
    } else {
      forall c | c in SpecColumns(fills) ensures c in ColumnsOf(a) {
        assert c !in d;
      }
      var m := Missing(fills, ColumnsOf(a));
      MissingLength(fills, ColumnsOf(a));
      assert |m| == 0;
      assert Generated(m, generate) == [];
      assert AutoFilled(a, fills, generate) == a + [];
    }
  }

  /** addAutoFillAssignments: the loop over the fill specs. */
  method AddAutoFillAssignments(assignments: seq<Assignment>, autoFillColumns: seq<FillSpec>,
                                generate: FillSpec -> Value)
    returns (r: seq<Assignment>)
    ensures r == AutoFilled(assignments, autoFillColumns, generate)
    ensures r[..|assignments|] == assignments
    ensures ColumnsOf(r) == ColumnsOf(assignments) + SpecColumns(autoFillColumns)
  {
    r := assignments;
    for i := 0 to |autoFillColumns|
      invariant r == AutoFilled(assignments, autoFillColumns[..i], generate)
    {
      var spec := autoFillColumns[i];
      AutoFillStep(assignments, autoFillColumns[..i], spec, generate);
      assert autoFillColumns[..i + 1] == autoFillColumns[..i] + [spec];
      if spec.columnName !in ColumnsOf(r) {
        r := r + [FillAssignment(spec, generate)];
      }
    }
    assert autoFillColumns[..|autoFillColumns|] == autoFillColumns;
    AutoFillColumns(assignments, autoFillColumns, generate);
  }

  // ---------------------------------------------------------------------------
  // The interceptors

  /** Which spec list an auto-fill interceptor reads. */
  datatype FillPhase = AtInsert | AtUpdate

  function FillsFor(p: Props, phase: FillPhase): seq<FillSpec>
  {
    match phase
    case AtInsert => p.insertFills
    case AtUpdate => p.updateFills
  }

  /**
   * The body both auto-fill interceptors share: only insert statements are looked
   * at, and "no change" (None) is reported when the assignment list comes back equal.
   */
  function FillIntercept(st: Stmt, phase: FillPhase, generate: FillSpec -> Value): (r: Option<Stmt>)
    ensures !st.Insert? ==> r.None?
    ensures st.Insert? ==> (r.None? <==> SpecColumns(FillsFor(st.table.props, phase)) <= ColumnsOf(st.assignments))
    ensures r.Some? ==> && r.value.Insert? && r.value.table == st.table
                        && r.value.assignments == AutoFilled(st.assignments, FillsFor(st.table.props, phase), generate)
                        && |r.value.assignments| > |st.assignments|
  {
    if !st.Insert? then None
    else
      var fills := FillsFor(st.table.props, phase);
      if fills == [] then None
      else
        var assignments := AutoFilled(st.assignments, fills, generate);
        AutoFillUnchangedIff(st.assignments, fills, generate);
        AutoFillLength(st.assignments, fills, generate);
        if st.assignments == assignments then None
        else Some(Insert(st.table, assignments))
  }

  /**
   * UpdateAutoFillVisitorInterceptor.intercept. As written it tests for an insert
   * root, so it adds the update fills to insert statements and never changes an update.
   */
  function UpdateAutoFillIntercept(st: Stmt, generate: FillSpec -> Value): (r: Option<Stmt>)
    ensures st.Update? ==> r.None?
    ensures !st.Insert? ==> r.None?
    ensures st.Insert? && st.table.props.updateFills == [] ==> r.None?
    ensures st.Insert? ==> (r.None? <==> SpecColumns(st.table.props.updateFills) <= ColumnsOf(st.assignments))
    ensures r.Some? ==> r.value == Insert(st.table, AutoFilled(st.assignments, st.table.props.updateFills, generate))
  {
    FillIntercept(st, AtUpdate, generate)
  }
}
