/**
 * CompositorVisitorInterceptor: an ordered, mutable list of interceptors through
 * which a statement is threaded before it is formatted.
 */
module Compositor {
  import opened Wrappers
  import opened SqlAst
  import LogicalDelete
  import AutoFill
  import InsertAutoFill

  /** What a registered interceptor does: one of this library's three, or any other. */
  datatype Behaviour =
    | Logical
    | UpdateAutoFill
    | InsertAutoFill
    | Custom(f: Stmt -> Option<Stmt>)

  /** A registered interceptor object; `id` stands for its identity, which `remove` compares. */
  datatype Interceptor = Interceptor(id: nat, behaviour: Behaviour)

  /** `intercept` of one member; None is "no change". */
  function Apply(i: Interceptor, e: Stmt, generate: FillSpec -> Value): Option<Stmt>
  {
    match i.behaviour
    case Logical => Some(LogicalDelete.LogicalIntercept(e))
    case UpdateAutoFill => AutoFill.UpdateAutoFillIntercept(e, generate)
    case InsertAutoFill => InsertAutoFill.InsertAutoFillIntercept(e, generate)
    case Custom(f) => f(e)
  }

  /** One member's turn: its replacement, or the current tree when it reports "no change". */
  function Step(i: Interceptor, e: Stmt, generate: FillSpec -> Value): Stmt
  {
    Apply(i, e, generate).GetOr(e)
  }

  /** The tree after every member has had its turn, in list order, each seeing the previous one's output. */
  function Thread(members: seq<Interceptor>, e: Stmt, generate: FillSpec -> Value): Stmt
    decreases |members|
  {
    if members == [] then e
    else Thread(members[1..], Step(members[0], e, generate), generate)
  }

  /** The position of the first member with that identity, or |s| when there is none. */
  function IndexOf(s: seq<Interceptor>, id: nat): (k: nat)
    ensures k <= |s|
    ensures k < |s| ==> s[k].id == id
    ensures forall j :: 0 <= j < k ==> s[j].id != id
  {
    if s == [] then 0
    else if s[0].id == id then 0
    else 1 + IndexOf(s[1..], id)
  }

  /** MutableList.remove: drop the first member with that identity, keep the others in order. */
  function RemoveFirst(s: seq<Interceptor>, id: nat): (r: seq<Interceptor>)
    ensures var k := IndexOf(s, id);
            r == if k < |s| then s[..k] + s[k + 1..] else s
  {
    if s == [] then []
    else if s[0].id == id then s[1..]
    else
      var k := IndexOf(s, id);
      assert k == 1 + IndexOf(s[1..], id);
      assert k < |s| ==> s[..k] == [s[0]] + s[1..][..k - 1] && s[k + 1..] == s[1..][k..];
      [s[0]] + RemoveFirst(s[1..], id)
  }

  class CompositorVisitorInterceptor {
    var interceptors: seq<Interceptor>

    constructor ()
      ensures interceptors == []
    {
      interceptors := [];
    }

    /** Appends a member and returns the same chain, so registrations can be chained. */
    method Register(visitorInterceptor: Interceptor) returns (self: CompositorVisitorInterceptor)
      modifies this
      ensures interceptors == old(interceptors) + [visitorInterceptor]
      ensures self == this
    {
      interceptors := interceptors + [visitorInterceptor];
      self := this;
    }

    method Remove(visitorInterceptor: Interceptor)
      modifies this
      ensures interceptors == RemoveFirst(old(interceptors), visitorInterceptor.id)
    {
      interceptors := RemoveFirst(interceptors, visitorInterceptor.id);
    }

    /** Threads the statement through every member; None when the final tree equals the input. */
    method Intercept(expr: Stmt, generate: FillSpec -> Value) returns (r: Option<Stmt>)
      ensures r.None? <==> Thread(interceptors, expr, generate) == expr
      ensures r.Some? ==> r.value == Thread(interceptors, expr, generate)
      ensures interceptors == [] ==> r.None?
    {
      var nexpr := expr;
      for i := 0 to |interceptors|
        invariant Thread(interceptors[i..], nexpr, generate) == Thread(interceptors, expr, generate)
      {
        assert interceptors[i..][0] == interceptors[i] && interceptors[i..][1..] == interceptors[i + 1..];
        nexpr := Apply(interceptors[i], nexpr, generate).GetOr(nexpr);
      }
      assert interceptors[|interceptors|..] == [];
      r := if nexpr == expr then None else Some(nexpr);
    }
  }

  /** Threading through a concatenation is threading through one list, then the other. */
  lemma {:induction false} ThreadAppend(a: seq<Interceptor>, b: seq<Interceptor>, e: Stmt, generate: FillSpec -> Value)
    ensures Thread(a + b, e, generate) == Thread(b, Thread(a, e, generate), generate)
    decreases |a|
  {
    if a == [] {
      assert a + b == b;
    } else {
      assert (a + b)[0] == a[0] && (a + b)[1..] == a[1..] + b;
      ThreadAppend(a[1..], b, Step(a[0], e, generate), generate);
    }
  }

  /** A member that always reports "no change" can sit anywhere in the chain without effect. */
  lemma NoChangeMemberIsNeutral(a: seq<Interceptor>, m: Interceptor, b: seq<Interceptor>, e: Stmt,
                                generate: FillSpec -> Value)
    requires forall x :: Apply(m, x, generate).None?
    ensures Thread(a + [m] + b, e, generate) == Thread(a + b, e, generate)
  {
    ThreadAppend(a + [m], b, e, generate);
    ThreadAppend(a, [m], e, generate);
    ThreadAppend(a, b, e, generate);
    assert [m][1..] == [];
  }
}
