/** rules/rule_ibm_is_share_replica_operations.go */
module ShareReplicaOperations {
  import opened Wrappers
  import opened Hcl
  import opened Tflint
  import opened Checks

  const RuleName := "ibm_is_share_replica_operations"
  const ResourceType := "ibm_is_share_replica_operations"
  const RequiredAttrs := ["share_replica"]
  const FallbackPolicies: set<GoString> := {"split", "failover"}
  const FallbackMsg := Text("fallback_policy must be either 'split' or 'failover'")
  const NeitherOperation := Text("either split_share or fallback_policy must be specified")
  const BothOperations := Text("cannot specify both split_share and fallback_policy")
  const NegativeTimeout := Text("timeout cannot be negative")

  /** What `Check` does with one resource block. */
  function ResourceIssues(b: Block, env: Env): Outcome {
    var o := Ok(Missing(RuleName, b, RequiredAttrs, MustBeSpecified));
    var o := Then(o, Flag(b, env, "split_share"));
    var o := Then(o, Enum(RuleName, b, env, "fallback_policy", FallbackPolicies, FallbackMsg));
    var o := Then(o, Ok(OneOf(RuleName, b, Has(b, "split_share"), Has(b, "fallback_policy"), BothOperations, NeitherOperation)));
    Then(o, IntAtLeast(RuleName, b, env, "timeout", 0, NegativeTimeout))
  }

  method CheckResource(runner: Runner, b: Block) returns (err: Option<Error>)
    modifies runner
    ensures Produced(runner, old(runner.issues), err, ResourceIssues(b, runner.env))
  {
    err := None;
    CheckRequired(runner, RuleName, b, RequiredAttrs, MustBeSpecified);
    ghost var done := Ok(Missing(RuleName, b, RequiredAttrs, MustBeSpecified));
    ghost var step := Flag(b, runner.env, "split_share");
    err := CheckFlag(runner, b, "split_share");
    FlagNeverReports(b, runner.env, "split_share");
    Extend(old(runner.issues), done, step);
    if err.Some? {
      return;
    }
    done := Then(done, step);
    step := Enum(RuleName, b, runner.env, "fallback_policy", FallbackPolicies, FallbackMsg);
    err := CheckEnum(runner, RuleName, b, "fallback_policy", FallbackPolicies, FallbackMsg);
    Extend(old(runner.issues), done, step);
    if err.Some? {
      return;
    }
    done := Then(done, step);
    step := Ok(OneOf(RuleName, b, Has(b, "split_share"), Has(b, "fallback_policy"), BothOperations, NeitherOperation));
    CheckOneOf(runner, RuleName, b, "split_share" in b.body.attributes, "fallback_policy" in b.body.attributes, BothOperations, NeitherOperation);
    Extend(old(runner.issues), done, step);
    done := Then(done, step);
    step := IntAtLeast(RuleName, b, runner.env, "timeout", 0, NegativeTimeout);
    err := CheckIntAtLeast(runner, RuleName, b, "timeout", 0, NegativeTimeout);
    Extend(old(runner.issues), done, step);
  }

  method Check(runner: Runner) returns (err: Option<Error>)
    modifies runner
    ensures Produced(runner, old(runner.issues), err, RunRule(runner.content, ResourceType, runner.env, ResourceIssues))
  {
    var resources := runner.GetResourceContent(ResourceType);
    if resources.Failure? {
      return Some(resources.error);
    }
    var blocks := resources.value;
    var i := 0;
    while i < |blocks|
      invariant 0 <= i <= |blocks|
      invariant Produced(runner, old(runner.issues), None, ForEach(blocks[..i], runner.env, ResourceIssues))
    {
      ForEachStep(blocks, i, runner.env, ResourceIssues);
      err := CheckResource(runner, blocks[i]);
      Extend(old(runner.issues), ForEach(blocks[..i], runner.env, ResourceIssues), ResourceIssues(blocks[i], runner.env));
      if err.Some? {
        ForEachStopsAtError(blocks, i + 1, runner.env, ResourceIssues);
        return;
      }
      i := i + 1;
    }
    assert blocks[..i] == blocks;
    return None;
  }

  /** What a resource must satisfy to draw no issue and no error. */
  predicate Clean(b: Block, env: Env) {
    (forall a :: a in RequiredAttrs ==> Has(b, a))
    && (Has(b, "split_share") ==> env.flag(ExprOf(b, "split_share")).Success?)
    && StrIn(b, env, "fallback_policy", FallbackPolicies)
    && Has(b, "split_share") != Has(b, "fallback_policy")
    && IntFrom(b, env, "timeout", 0)
  }

  /** A resource draws no issue and no error exactly when it is clean. */
  lemma Passes(b: Block, env: Env)
    ensures ResourceIssues(b, env) == Pass <==> Clean(b, env)
  {
    var o0 := Ok(Missing(RuleName, b, RequiredAttrs, MustBeSpecified));
    var s1 := Flag(b, env, "split_share");
    ThenPass(o0, s1);
    var o1 := Then(o0, s1);
    var s2 := Enum(RuleName, b, env, "fallback_policy", FallbackPolicies, FallbackMsg);
    ThenPass(o1, s2);
    var o2 := Then(o1, s2);
    var s3 := Ok(OneOf(RuleName, b, Has(b, "split_share"), Has(b, "fallback_policy"), BothOperations, NeitherOperation));
    ThenPass(o2, s3);
    var o3 := Then(o2, s3);
    var s4 := IntAtLeast(RuleName, b, env, "timeout", 0, NegativeTimeout);
    ThenPass(o3, s4);
    MissingNone(RuleName, b, RequiredAttrs, MustBeSpecified);
    FlagPass(b, env, "split_share");
    EnumPass(RuleName, b, env, "fallback_policy", FallbackPolicies, FallbackMsg);
    IntAtLeastPass(RuleName, b, env, "timeout", 0, NegativeTimeout);
  }
}
