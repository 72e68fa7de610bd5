/** rules/rule_ibm_is_cluster_network_subnet.go */
module ClusterNetworkSubnet {
  import opened Wrappers
  import opened Hcl
  import opened Tflint
  import opened Checks
  import opened Validators

  const RuleName := "ibm_is_cluster_network_subnet"
  const ResourceType := "ibm_is_cluster_network_subnet"
  const RequiredAttrs := ["cluster_network_id", "name", "total_ipv4_address_count"]
  const CountMsg := Text("total_ipv4_address_count must be a power of 2 between 8 and 8192")

  /** What `Check` does with one resource block. */
  function ResourceIssues(b: Block, env: Env): Outcome {
    var o := Ok(Missing(RuleName, b, RequiredAttrs, AttributeMustBeSpecified));
    var o := Then(o, IntValid(RuleName, b, env, "total_ipv4_address_count", SubnetSize, CountMsg));
    Then(o, Valid(RuleName, b, env, "name", NonEmpty, NameEmpty))
  }

  method CheckResource(runner: Runner, b: Block) returns (err: Option<Error>)
    modifies runner
    ensures Produced(runner, old(runner.issues), err, ResourceIssues(b, runner.env))
  {
    err := None;
    CheckRequired(runner, RuleName, b, RequiredAttrs, AttributeMustBeSpecified);
    ghost var done := Ok(Missing(RuleName, b, RequiredAttrs, AttributeMustBeSpecified));
    ghost var step := IntValid(RuleName, b, runner.env, "total_ipv4_address_count", SubnetSize, CountMsg);
    err := CheckIntValid(runner, RuleName, b, "total_ipv4_address_count", SubnetSize, CountMsg);
    Extend(old(runner.issues), done, step);
    if err.Some? {
      return;
    }
    done := Then(done, step);
    step := Valid(RuleName, b, runner.env, "name", NonEmpty, NameEmpty);
    err := CheckValid(runner, RuleName, b, "name", NonEmpty, NameEmpty);
    Extend(old(runner.issues), done, step);
  }

  method Check(runner: Runner) returns (err: Option<Error>)
    modifies runner
    ensures Produced(runner, old(runner.issues), err, RunRule(runner.content, ResourceType, runner.env, ResourceIssues))
  {
    var resources := runner.GetResourceContent(ResourceType);
    if resources.Failure? {
      return Some(resources.error);
    }
    var blocks := resources.value;
    var i := 0;
    while i < |blocks|
      invariant 0 <= i <= |blocks|
      invariant Produced(runner, old(runner.issues), None, ForEach(blocks[..i], runner.env, ResourceIssues))
    {
      ForEachStep(blocks, i, runner.env, ResourceIssues);
      err := CheckResource(runner, blocks[i]);
      Extend(old(runner.issues), ForEach(blocks[..i], runner.env, ResourceIssues), ResourceIssues(blocks[i], runner.env));
      if err.Some? {
        ForEachStopsAtError(blocks, i + 1, runner.env, ResourceIssues);
        return;
      }
      i := i + 1;
    }
    assert blocks[..i] == blocks;
    return None;
  }

  /** What a resource must satisfy to draw no issue and no error. */
  predicate Clean(b: Block, env: Env) {
    (forall a :: a in RequiredAttrs ==> Has(b, a))
    && IntIs(b, env, "total_ipv4_address_count", SubnetSize)
    && StrIs(b, env, "name", NonEmpty)
  }

  /** A resource draws no issue and no error exactly when it is clean. */
  lemma Passes(b: Block, env: Env)
    ensures ResourceIssues(b, env) == Pass <==> Clean(b, env)
  {
    var o0 := Ok(Missing(RuleName, b, RequiredAttrs, AttributeMustBeSpecified));
    var s1 := IntValid(RuleName, b, env, "total_ipv4_address_count", SubnetSize, CountMsg);
    ThenPass(o0, s1);
    var o1 := Then(o0, s1);
    var s2 := Valid(RuleName, b, env, "name", NonEmpty, NameEmpty);
    ThenPass(o1, s2);
    MissingNone(RuleName, b, RequiredAttrs, AttributeMustBeSpecified);
    IntValidPass(RuleName, b, env, "total_ipv4_address_count", SubnetSize, CountMsg);
    ValidPass(RuleName, b, env, "name", NonEmpty, NameEmpty);
  }
}
