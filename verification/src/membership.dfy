/**
 * `validateMembershipCounts`, written out identically in
 * rules/rule_ibm_is_instance_group_manager.go and
 * rules/rule_ibm_is_instance_group_manager_action.go: a negative
 * `min_membership_count` is reported, and `max_membership_count` must not
 * fall below the minimum, which counts as 0 when it is absent.
 */
module Membership {
  import opened Wrappers
  import opened Hcl
  import opened Tflint

  const MinAttr := "min_membership_count"
  const MaxAttr := "max_membership_count"
  const MinNegative := Text("min_membership_count must be greater than or equal to 0")
  const MaxBelowMin := Text("max_membership_count must be greater than or equal to min_membership_count")

  /** The minimum the maximum is compared with: the evaluated `min_membership_count`, else 0. */
  function MinCount(b: Block, env: Env): int {
    if Has(b, MinAttr) && env.num(ExprOf(b, MinAttr)).Success? then env.num(ExprOf(b, MinAttr)).value else 0
  }

  function MinIssues(rule: string, b: Block, env: Env): seq<Issue> {
    if Has(b, MinAttr) && MinCount(b, env) < 0 then [Issue(rule, MinNegative, ExprOf(b, MinAttr).range)] else []
  }

  /** What `validateMembershipCounts` reports, and the evaluation error that ends it. */
  function MembershipCounts(rule: string, b: Block, env: Env): Outcome {
    if Has(b, MinAttr) && env.num(ExprOf(b, MinAttr)).Failure? then Fail(env.num(ExprOf(b, MinAttr)).error)
    else if !Has(b, MaxAttr) then Ok(MinIssues(rule, b, env))
    else
      match env.num(ExprOf(b, MaxAttr))
      case Failure(e) => Outcome(MinIssues(rule, b, env), Some(e))
      case Success(max) =>
        Ok(MinIssues(rule, b, env)
           + if max < MinCount(b, env) then [Issue(rule, MaxBelowMin, ExprOf(b, MaxAttr).range)] else [])
  }

  method CheckMembershipCounts(runner: Runner, rule: string, b: Block) returns (err: Option<Error>)
    modifies runner
    ensures Produced(runner, old(runner.issues), err, MembershipCounts(rule, b, runner.env))
  {
    var minCount := 0;
    if MinAttr in b.body.attributes {
      var x := b.body.attributes[MinAttr].expr;
      var r := runner.EvaluateInt(x);
      if r.Failure? {
        return Some(r.error);
      }
      minCount := r.value;
      if minCount < 0 {
        runner.EmitIssue(rule, MinNegative, x.range);
      }
    }
    assert minCount == MinCount(b, runner.env);
    assert runner.issues == old(runner.issues) + MinIssues(rule, b, runner.env);
    if MaxAttr in b.body.attributes {
      var x := b.body.attributes[MaxAttr].expr;
      var r := runner.EvaluateInt(x);
      if r.Failure? {
        return Some(r.error);
      }
      if r.value < minCount {
        runner.EmitIssue(rule, MaxBelowMin, x.range);
      }
    }
    return None;
  }

  /** Counts that draw no issue and no error. */
  predicate MembershipClean(b: Block, env: Env) {
    && (Has(b, MinAttr) ==> env.num(ExprOf(b, MinAttr)).Success? && env.num(ExprOf(b, MinAttr)).value >= 0)
    && (Has(b, MaxAttr) ==> env.num(ExprOf(b, MaxAttr)).Success? && env.num(ExprOf(b, MaxAttr)).value >= MinCount(b, env))
  }

  lemma MembershipPasses(rule: string, b: Block, env: Env)
    ensures MembershipCounts(rule, b, env) == Pass <==> MembershipClean(b, env)
  {
  }

  /**
   * Without `min_membership_count` the maximum is compared with 0, so a
   * negative maximum is reported and nothing else is.
   */
  lemma AbsentMinIsZero(rule: string, b: Block, env: Env)
    requires !Has(b, MinAttr) && Has(b, MaxAttr) && env.num(ExprOf(b, MaxAttr)).Success?
    ensures MembershipCounts(rule, b, env).err.None?
    ensures MembershipCounts(rule, b, env).issues
         == if env.num(ExprOf(b, MaxAttr)).value < 0 then [Issue(rule, MaxBelowMin, ExprOf(b, MaxAttr).range)] else []
  {
  }

  /**
   * A negative minimum is reported even when the maximum then fails to
   * evaluate; the maximum's error still ends the check.
   */
  lemma MinReportedBeforeMaxError(rule: string, b: Block, env: Env)
    requires Has(b, MinAttr) && env.num(ExprOf(b, MinAttr)).Success? && env.num(ExprOf(b, MinAttr)).value < 0
    requires Has(b, MaxAttr) && env.num(ExprOf(b, MaxAttr)).Failure?
    ensures MembershipCounts(rule, b, env)
         == Outcome([Issue(rule, MinNegative, ExprOf(b, MinAttr).range)], Some(env.num(ExprOf(b, MaxAttr)).error))
  {
  }
}
