/** rules/rule_ibm_is_private_path_service_gateway.go */
module PrivatePathServiceGateway {
  import opened Wrappers
  import opened Hcl
  import opened Tflint
  import opened Checks

  const RuleName := "ibm_is_private_path_service_gateway"
  const ResourceType := "ibm_is_private_path_service_gateway"
  const RequiredAttrs := ["name", "load_balancer", "default_access_policy"]
  const DefaultPolicyMsg := Text("default_access_policy must be either 'permit' or 'deny'")
  const EndpointsEmpty := Text("service_endpoints cannot be empty when specified")

  /** What `Check` does with one resource block. */
  function ResourceIssues(b: Block, env: Env): Outcome {
    var o := Ok(Missing(RuleName, b, RequiredAttrs, AttributeMustBeSpecified));
    var o := Then(o, NameLength(RuleName, b, env, "name", NameEmpty, NameTooLong));
    var o := Then(o, Enum(RuleName, b, env, "default_access_policy", AccessPolicies, DefaultPolicyMsg));
    Then(o, ValidList(RuleName, b, env, "service_endpoints", NonEmptyList, EndpointsEmpty))
  }

  method CheckResource(runner: Runner, b: Block) returns (err: Option<Error>)
    modifies runner
    ensures Produced(runner, old(runner.issues), err, ResourceIssues(b, runner.env))
  {
    err := None;
    CheckRequired(runner, RuleName, b, RequiredAttrs, AttributeMustBeSpecified);
    ghost var done := Ok(Missing(RuleName, b, RequiredAttrs, AttributeMustBeSpecified));
    ghost var step := NameLength(RuleName, b, runner.env, "name", NameEmpty, NameTooLong);
    err := CheckNameLength(runner, RuleName, b, "name", NameEmpty, NameTooLong);
    Extend(old(runner.issues), done, step);
    if err.Some? {
      return;
    }
    done := Then(done, step);
    step := Enum(RuleName, b, runner.env, "default_access_policy", AccessPolicies, DefaultPolicyMsg);
    err := CheckEnum(runner, RuleName, b, "default_access_policy", AccessPolicies, DefaultPolicyMsg);
    Extend(old(runner.issues), done, step);
    if err.Some? {
      return;
    }
    done := Then(done, step);
    step := ValidList(RuleName, b, runner.env, "service_endpoints", NonEmptyList, EndpointsEmpty);
    err := CheckValidList(runner, RuleName, b, "service_endpoints", NonEmptyList, EndpointsEmpty);
    Extend(old(runner.issues), done, step);
  }

  method Check(runner: Runner) returns (err: Option<Error>)
    modifies runner
    ensures Produced(runner, old(runner.issues), err, RunRule(runner.content, ResourceType, runner.env, ResourceIssues))
  {
    var resources := runner.GetResourceContent(ResourceType);
    if resources.Failure? {
      return Some(resources.error);
    }
    var blocks := resources.value;
    var i := 0;
    while i < |blocks|
      invariant 0 <= i <= |blocks|
      invariant Produced(runner, old(runner.issues), None, ForEach(blocks[..i], runner.env, ResourceIssues))
    {
      ForEachStep(blocks, i, runner.env, ResourceIssues);
      err := CheckResource(runner, blocks[i]);
      Extend(old(runner.issues), ForEach(blocks[..i], runner.env, ResourceIssues), ResourceIssues(blocks[i], runner.env));
      if err.Some? {
        ForEachStopsAtError(blocks, i + 1, runner.env, ResourceIssues);
        return;
      }
      i := i + 1;
    }
    assert blocks[..i] == blocks;
    return None;
  }

  /** What a resource must satisfy to draw no issue and no error. */
  predicate Clean(b: Block, env: Env) {
    (forall a :: a in RequiredAttrs ==> Has(b, a))
    && NameOk(b, env, "name")
    && StrIn(b, env, "default_access_policy", AccessPolicies)
    && ListIs(b, env, "service_endpoints", NonEmptyList)
  }

  /** A resource draws no issue and no error exactly when it is clean. */
  lemma Passes(b: Block, env: Env)
    ensures ResourceIssues(b, env) == Pass <==> Clean(b, env)
  {
    var o0 := Ok(Missing(RuleName, b, RequiredAttrs, AttributeMustBeSpecified));
    var s1 := NameLength(RuleName, b, env, "name", NameEmpty, NameTooLong);
    ThenPass(o0, s1);
    var o1 := Then(o0, s1);
    var s2 := Enum(RuleName, b, env, "default_access_policy", AccessPolicies, DefaultPolicyMsg);
    ThenPass(o1, s2);
    var o2 := Then(o1, s2);
    var s3 := ValidList(RuleName, b, env, "service_endpoints", NonEmptyList, EndpointsEmpty);
    ThenPass(o2, s3);
    MissingNone(RuleName, b, RequiredAttrs, AttributeMustBeSpecified);
    NameLengthPass(RuleName, b, env, "name", NameEmpty, NameTooLong);
    EnumPass(RuleName, b, env, "default_access_policy", AccessPolicies, DefaultPolicyMsg);
    ValidListPass(RuleName, b, env, "service_endpoints", NonEmptyList, EndpointsEmpty);
  }
}
