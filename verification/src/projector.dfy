/**
 * `EachStringSliceExprs` (ibm/runner.go): evaluate an expression as a list
 * of strings and hand each value to a callback together with the
 * expression it came from. The callback is modelled by the sequence of
 * calls it receives.
 */
module Projector {
  import opened Wrappers
  import opened Hcl
  import opened Tflint

  /** One invocation `proc(val, expr)`. */
  datatype Call = Call(val: GoString, expr: Expr)

  /** What the loop hands to `proc`, and the error that ended it, if any. */
  datatype Projected = Projected(calls: seq<Call>, err: Option<Error>)

  function Repeat(e: Expr, n: nat): (r: seq<Expr>)
    ensures |r| == n && forall i :: 0 <= i < n ==> r[i] == e
  {
    if n == 0 then [] else Repeat(e, n - 1) + [e]
  }

  /**
   * The `exprs` slice: the elements of a static list, or, when `hcl.ExprList`
   * fails, the whole expression once per value.
   */
  function ElementExprs(expr: Expr, n: nat): seq<Expr> {
    match expr.elements
    case Some(es) => es
    case None => Repeat(expr, n)
  }

  function Zip(vals: seq<GoString>, exprs: seq<Expr>): (r: seq<Call>)
    requires |vals| <= |exprs|
    ensures |r| == |vals|
    ensures forall i :: 0 <= i < |vals| ==> r[i] == Call(vals[i], exprs[i])
  {
    if vals == [] then [] else Zip(vals[..|vals| - 1], exprs) + [Call(vals[|vals| - 1], exprs[|vals| - 1])]
  }

  /**
   * The calls made: one per value while an element expression exists; a
   * static list shorter than the value list makes `exprs[idx]` panic, which
   * is reported as an index error after the calls already made.
   */
  function Projection(env: Env, expr: Expr): Projected {
    match env.strs(expr)
    case Failure(e) => Projected([], Some(e))
    case Success(vals) =>
      var es := ElementExprs(expr, |vals|);
      if |vals| <= |es| then Projected(Zip(vals, es), None)
      else Projected(Zip(vals[..|es|], es), Some(IndexOutOfRange(|es|, |es|)))
  }

  method EachStringSliceExprs(runner: Runner, expr: Expr) returns (calls: seq<Call>, err: Option<Error>)
    ensures Projected(calls, err) == Projection(runner.env, expr)
  {
    calls := [];
    var r := runner.EvaluateStrings(expr);
    if r.Failure? {
      return [], Some(r.error);
    }
    var vals := r.value;
    var exprs: seq<Expr> := [];
    if expr.elements.Some? {
      exprs := expr.elements.value;
    } else {
      var k := 0;
      while k < |vals|
        invariant 0 <= k <= |vals|
        invariant exprs == Repeat(expr, k)
      {
        exprs := exprs + [expr];
        k := k + 1;
      }
    }
    var idx := 0;
    while idx < |vals|
      invariant 0 <= idx <= |vals|
      invariant idx <= |exprs|
      invariant calls == Zip(vals[..idx], exprs)
    {
      if idx >= |exprs| {
        return calls, Some(IndexOutOfRange(idx, |exprs|));
      }
      calls := calls + [Call(vals[idx], exprs[idx])];
      idx := idx + 1;
      assert vals[..idx][..idx - 1] == vals[..idx - 1];
    }
    assert vals[..idx] == vals;
    return calls, None;
  }

  /**
   * On a successful evaluation whose element expressions suffice, `proc`
   * receives every value once, in order, paired with its own list element,
   * or with the whole expression when it is not a static list.
   */
  lemma ProjectionPairs(env: Env, expr: Expr)
    requires env.strs(expr).Success?
    requires expr.elements.None? || |env.strs(expr).value| <= |expr.elements.value|
    ensures Projection(env, expr).err == None
    ensures |Projection(env, expr).calls| == |env.strs(expr).value|
    ensures forall i :: 0 <= i < |env.strs(expr).value| ==>
      && Projection(env, expr).calls[i].val == env.strs(expr).value[i]
      && Projection(env, expr).calls[i].expr == (if expr.elements.Some? then expr.elements.value[i] else expr)
  {
  }

  /** An evaluation error is returned before `proc` is called at all. */
  lemma ProjectionEvalError(env: Env, expr: Expr)
    requires env.strs(expr).Failure?
    ensures Projection(env, expr) == Projected([], Some(env.strs(expr).error))
  {
  }

  /** A static list with fewer elements than values panics after one call per element. */
  lemma ProjectionShortList(env: Env, expr: Expr)
    requires env.strs(expr).Success? && expr.elements.Some?
    requires |expr.elements.value| < |env.strs(expr).value|
    ensures Projection(env, expr).err == Some(IndexOutOfRange(|expr.elements.value|, |expr.elements.value|))
    ensures |Projection(env, expr).calls| == |expr.elements.value|
  {
  }
}
