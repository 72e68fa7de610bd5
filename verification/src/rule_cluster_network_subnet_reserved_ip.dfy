/** rules/rule_ibm_is_cluster_network_subnet_reserved_ip.go */
module ClusterNetworkSubnetReservedIp {
  import opened Wrappers
  import opened Hcl
  import opened Tflint
  import opened Checks
  import opened Validators

  const RuleName := "ibm_is_cluster_network_subnet_reserved_ip"
  const ResourceType := "ibm_is_cluster_network_subnet_reserved_ip"
  const RequiredAttrs := ["address", "cluster_network_id", "cluster_network_subnet_id", "name"]

  /** What `Check` does with one resource block. */
  function ResourceIssues(b: Block, env: Env): Outcome {
    var o := Ok(Missing(RuleName, b, RequiredAttrs, AttributeMustBeSpecified));
    var o := Then(o, IPv4(RuleName, b, env, "address", InvalidIPv4));
    Then(o, NameLength(RuleName, b, env, "name", NameEmpty, NameTooLong))
  }

  method CheckResource(runner: Runner, b: Block) returns (err: Option<Error>)
    modifies runner
    ensures Produced(runner, old(runner.issues), err, ResourceIssues(b, runner.env))
  {
    err := None;
    CheckRequired(runner, RuleName, b, RequiredAttrs, AttributeMustBeSpecified);
    ghost var done := Ok(Missing(RuleName, b, RequiredAttrs, AttributeMustBeSpecified));
    ghost var step := IPv4(RuleName, b, runner.env, "address", InvalidIPv4);
    err := CheckIPv4(runner, RuleName, b, "address", InvalidIPv4);
    Extend(old(runner.issues), done, step);
    if err.Some? {
      return;
    }
    done := Then(done, step);
    step := NameLength(RuleName, b, runner.env, "name", NameEmpty, NameTooLong);
    err := CheckNameLength(runner, RuleName, b, "name", NameEmpty, NameTooLong);
    Extend(old(runner.issues), done, step);
  }

  method Check(runner: Runner) returns (err: Option<Error>)
    modifies runner
    ensures Produced(runner, old(runner.issues), err, RunRule(runner.content, ResourceType, runner.env, ResourceIssues))
  {
    var resources := runner.GetResourceContent(ResourceType);
    if resources.Failure? {
      return Some(resources.error);
    }
    var blocks := resources.value;
    var i := 0;
    while i < |blocks|
      invariant 0 <= i <= |blocks|
      invariant Produced(runner, old(runner.issues), None, ForEach(blocks[..i], runner.env, ResourceIssues))
    {
      ForEachStep(blocks, i, runner.env, ResourceIssues);
      err := CheckResource(runner, blocks[i]);
      Extend(old(runner.issues), ForEach(blocks[..i], runner.env, ResourceIssues), ResourceIssues(blocks[i], runner.env));
      if err.Some? {
        ForEachStopsAtError(blocks, i + 1, runner.env, ResourceIssues);
        return;
      }
      i := i + 1;
    }
    assert blocks[..i] == blocks;
    return None;
  }

  /** What a resource must satisfy to draw no issue and no error. */
  predicate Clean(b: Block, env: Env) {
    (forall a :: a in RequiredAttrs ==> Has(b, a))
    && IPv4Ok(b, env, "address")
    && NameOk(b, env, "name")
  }

  /** A resource draws no issue and no error exactly when it is clean. */
  lemma Passes(b: Block, env: Env)
    ensures ResourceIssues(b, env) == Pass <==> Clean(b, env)
  {
    var o0 := Ok(Missing(RuleName, b, RequiredAttrs, AttributeMustBeSpecified));
    var s1 := IPv4(RuleName, b, env, "address", InvalidIPv4);
    ThenPass(o0, s1);
    var o1 := Then(o0, s1);
    var s2 := NameLength(RuleName, b, env, "name", NameEmpty, NameTooLong);
    ThenPass(o1, s2);
    MissingNone(RuleName, b, RequiredAttrs, AttributeMustBeSpecified);
    IPv4Pass(RuleName, b, env, "address", InvalidIPv4);
    NameLengthPass(RuleName, b, env, "name", NameEmpty, NameTooLong);
  }
}
