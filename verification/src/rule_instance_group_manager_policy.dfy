/** rules/rule_ibm_is_instance_group_manager_policy.go */
module InstanceGroupManagerPolicy {
  import opened Wrappers
  import opened Hcl
  import opened Tflint
  import opened Checks

  const RuleName := "ibm_is_instance_group_manager_policy"
  const ResourceType := "ibm_is_instance_group_manager_policy"
  const RequiredAttrs := ["name", "instance_group", "instance_group_manager", "metric_type", "metric_value", "policy_type"]
  const MetricTypes: set<GoString> := {"cpu", "memory", "network_in", "network_out", "custom"}
  const MetricTypeMsg := Text("invalid metric_type. Must be one of: cpu, memory, network_in, network_out, custom")
  const PolicyTypes: set<GoString> := {"target", "range", "percentage"}
  const PolicyTypeMsg := Text("invalid policy_type. Must be one of: target, range, percentage")
  const MetricValueMsg := Text("metric_value must be greater than 0")

  /** What `Check` does with one resource block. */
  function ResourceIssues(b: Block, env: Env): Outcome {
    var o := Ok(Missing(RuleName, b, RequiredAttrs, AttributeMustBeSpecified));
    var o := Then(o, Enum(RuleName, b, env, "metric_type", MetricTypes, MetricTypeMsg));
    var o := Then(o, Enum(RuleName, b, env, "policy_type", PolicyTypes, PolicyTypeMsg));
    Then(o, FloatPositive(RuleName, b, env, "metric_value", MetricValueMsg))
  }

  method CheckResource(runner: Runner, b: Block) returns (err: Option<Error>)
    modifies runner
    ensures Produced(runner, old(runner.issues), err, ResourceIssues(b, runner.env))
  {
    err := None;
    CheckRequired(runner, RuleName, b, RequiredAttrs, AttributeMustBeSpecified);
    ghost var done := Ok(Missing(RuleName, b, RequiredAttrs, AttributeMustBeSpecified));
    ghost var step := Enum(RuleName, b, runner.env, "metric_type", MetricTypes, MetricTypeMsg);
    err := CheckEnum(runner, RuleName, b, "metric_type", MetricTypes, MetricTypeMsg);
    Extend(old(runner.issues), done, step);
    if err.Some? {
      return;
    }
    done := Then(done, step);
    step := Enum(RuleName, b, runner.env, "policy_type", PolicyTypes, PolicyTypeMsg);
    err := CheckEnum(runner, RuleName, b, "policy_type", PolicyTypes, PolicyTypeMsg);
    Extend(old(runner.issues), done, step);
    if err.Some? {
      return;
    }
    done := Then(done, step);
    step := FloatPositive(RuleName, b, runner.env, "metric_value", MetricValueMsg);
    err := CheckFloatPositive(runner, RuleName, b, "metric_value", MetricValueMsg);
    Extend(old(runner.issues), done, step);
  }

  method Check(runner: Runner) returns (err: Option<Error>)
    modifies runner
    ensures Produced(runner, old(runner.issues), err, RunRule(runner.content, ResourceType, runner.env, ResourceIssues))
  {
    var resources := runner.GetResourceContent(ResourceType);
    if resources.Failure? {
      return Some(resources.error);
    }
    var blocks := resources.value;
    var i := 0;
    while i < |blocks|
      invariant 0 <= i <= |blocks|
      invariant Produced(runner, old(runner.issues), None, ForEach(blocks[..i], runner.env, ResourceIssues))
    {
      ForEachStep(blocks, i, runner.env, ResourceIssues);
      err := CheckResource(runner, blocks[i]);
      Extend(old(runner.issues), ForEach(blocks[..i], runner.env, ResourceIssues), ResourceIssues(blocks[i], runner.env));
      if err.Some? {
        ForEachStopsAtError(blocks, i + 1, runner.env, ResourceIssues);
        return;
      }
      i := i + 1;
    }
    assert blocks[..i] == blocks;
    return None;
  }

  /** What a resource must satisfy to draw no issue and no error. */
  predicate Clean(b: Block, env: Env) {
    (forall a :: a in RequiredAttrs ==> Has(b, a))
    && StrIn(b, env, "metric_type", MetricTypes)
    && StrIn(b, env, "policy_type", PolicyTypes)
    && FloatAbove0(b, env, "metric_value")
  }

  /** A resource draws no issue and no error exactly when it is clean. */
  lemma Passes(b: Block, env: Env)
    ensures ResourceIssues(b, env) == Pass <==> Clean(b, env)
  {
    var o0 := Ok(Missing(RuleName, b, RequiredAttrs, AttributeMustBeSpecified));
    var s1 := Enum(RuleName, b, env, "metric_type", MetricTypes, MetricTypeMsg);
    ThenPass(o0, s1);
    var o1 := Then(o0, s1);
    var s2 := Enum(RuleName, b, env, "policy_type", PolicyTypes, PolicyTypeMsg);
    ThenPass(o1, s2);
    var o2 := Then(o1, s2);
    var s3 := FloatPositive(RuleName, b, env, "metric_value", MetricValueMsg);
    ThenPass(o2, s3);
    MissingNone(RuleName, b, RequiredAttrs, AttributeMustBeSpecified);
    EnumPass(RuleName, b, env, "metric_type", MetricTypes, MetricTypeMsg);
    EnumPass(RuleName, b, env, "policy_type", PolicyTypes, PolicyTypeMsg);
    FloatPositivePass(RuleName, b, env, "metric_value", MetricValueMsg);
  }
}
