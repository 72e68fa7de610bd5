/** rules/rule_ibm_is_lb_pool_member.go */
module LbPoolMember {
  import opened Wrappers
  import opened Hcl
  import opened Tflint
  import opened Checks

  const RuleName := "ibm_is_lb_pool_member"
  const ResourceType := "ibm_is_lb_pool_member"
  const RequiredAttrs := ["lb", "pool", "port"]
  const BothTargets := Text("only one of target_address or target_id can be specified")
  const NoTarget := Text("either target_address or target_id must be specified")
  const PortMsg := Text("port must be between 1 and 65535")
  const WeightMsg := Text("weight must be between 0 and 100")

  /** What `Check` does with one resource block. */
  function ResourceIssues(b: Block, env: Env): Outcome {
    var o := Ok(Missing(RuleName, b, RequiredAttrs, AttributeMustBeSpecified));
    var o := Then(o, Ok(OneOf(RuleName, b, Has(b, "target_address"), Has(b, "target_id"), BothTargets, NoTarget)));
    var o := Then(o, IntRange(RuleName, b, env, "port", 1, 65535, PortMsg));
    Then(o, IntRange(RuleName, b, env, "weight", 0, 100, WeightMsg))
  }

  method CheckResource(runner: Runner, b: Block) returns (err: Option<Error>)
    modifies runner
    ensures Produced(runner, old(runner.issues), err, ResourceIssues(b, runner.env))
  {
    err := None;
    CheckRequired(runner, RuleName, b, RequiredAttrs, AttributeMustBeSpecified);
    ghost var done := Ok(Missing(RuleName, b, RequiredAttrs, AttributeMustBeSpecified));
    ghost var step := Ok(OneOf(RuleName, b, Has(b, "target_address"), Has(b, "target_id"), BothTargets, NoTarget));
    CheckOneOf(runner, RuleName, b, "target_address" in b.body.attributes, "target_id" in b.body.attributes, BothTargets, NoTarget);
    Extend(old(runner.issues), done, step);
    done := Then(done, step);
    step := IntRange(RuleName, b, runner.env, "port", 1, 65535, PortMsg);
    err := CheckIntRange(runner, RuleName, b, "port", 1, 65535, PortMsg);
    Extend(old(runner.issues), done, step);
    if err.Some? {
      return;
    }
    done := Then(done, step);
    step := IntRange(RuleName, b, runner.env, "weight", 0, 100, WeightMsg);
    err := CheckIntRange(runner, RuleName, b, "weight", 0, 100, WeightMsg);
    Extend(old(runner.issues), done, step);
  }

  method Check(runner: Runner) returns (err: Option<Error>)
    modifies runner
    ensures Produced(runner, old(runner.issues), err, RunRule(runner.content, ResourceType, runner.env, ResourceIssues))
  {
    var resources := runner.GetResourceContent(ResourceType);
    if resources.Failure? {
      return Some(resources.error);
    }
    var blocks := resources.value;
    var i := 0;
    while i < |blocks|
      invariant 0 <= i <= |blocks|
      invariant Produced(runner, old(runner.issues), None, ForEach(blocks[..i], runner.env, ResourceIssues))
    {
      ForEachStep(blocks, i, runner.env, ResourceIssues);
      err := CheckResource(runner, blocks[i]);
      Extend(old(runner.issues), ForEach(blocks[..i], runner.env, ResourceIssues), ResourceIssues(blocks[i], runner.env));
      if err.Some? {
        ForEachStopsAtError(blocks, i + 1, runner.env, ResourceIssues);
        return;
      }
      i := i + 1;
    }
    assert blocks[..i] == blocks;
    return None;
  }

  /** What a resource must satisfy to draw no issue and no error. */
  predicate Clean(b: Block, env: Env) {
    (forall a :: a in RequiredAttrs ==> Has(b, a))
    && Has(b, "target_address") != Has(b, "target_id")
    && IntIn(b, env, "port", 1, 65535)
    && IntIn(b, env, "weight", 0, 100)
  }

  /** A resource draws no issue and no error exactly when it is clean. */
  lemma Passes(b: Block, env: Env)
    ensures ResourceIssues(b, env) == Pass <==> Clean(b, env)
  {
    var o0 := Ok(Missing(RuleName, b, RequiredAttrs, AttributeMustBeSpecified));
    var s1 := Ok(OneOf(RuleName, b, Has(b, "target_address"), Has(b, "target_id"), BothTargets, NoTarget));
    ThenPass(o0, s1);
    var o1 := Then(o0, s1);
    var s2 := IntRange(RuleName, b, env, "port", 1, 65535, PortMsg);
    ThenPass(o1, s2);
    var o2 := Then(o1, s2);
    var s3 := IntRange(RuleName, b, env, "weight", 0, 100, WeightMsg);
    ThenPass(o2, s3);
    MissingNone(RuleName, b, RequiredAttrs, AttributeMustBeSpecified);
    IntRangePass(RuleName, b, env, "port", 1, 65535, PortMsg);
    IntRangePass(RuleName, b, env, "weight", 0, 100, WeightMsg);
  }
}
