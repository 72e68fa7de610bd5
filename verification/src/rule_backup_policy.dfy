/** rules/rule_ibm_is_backup_policy.go */
module BackupPolicy {
  import opened Wrappers
  import opened Hcl
  import opened Tflint
  import opened Checks

  const RuleName := "ibm_is_backup_policy"
  const ResourceType := "ibm_is_backup_policy"
  const RequiredAttrs := ["name"]
  const MatchResourceTypeEmpty := Text("`match_resource_type` attribute cannot be empty")

  /** What `Check` does with one resource block. */
  function ResourceIssues(b: Block, env: Env): Outcome {
    var o := Ok(Missing(RuleName, b, RequiredAttrs, AttributeMustBeSpecified));
    Then(o, Valid(RuleName, b, env, "match_resource_type", NonEmpty, MatchResourceTypeEmpty))
  }

  method CheckResource(runner: Runner, b: Block) returns (err: Option<Error>)
    modifies runner
    ensures Produced(runner, old(runner.issues), err, ResourceIssues(b, runner.env))
  {
    err := None;
    CheckRequired(runner, RuleName, b, RequiredAttrs, AttributeMustBeSpecified);
    ghost var done := Ok(Missing(RuleName, b, RequiredAttrs, AttributeMustBeSpecified));
    ghost var step := Valid(RuleName, b, runner.env, "match_resource_type", NonEmpty, MatchResourceTypeEmpty);
    err := CheckValid(runner, RuleName, b, "match_resource_type", NonEmpty, MatchResourceTypeEmpty);
    Extend(old(runner.issues), done, step);
  }

  method Check(runner: Runner) returns (err: Option<Error>)
    modifies runner
    ensures Produced(runner, old(runner.issues), err, RunRule(runner.content, ResourceType, runner.env, ResourceIssues))
  {
    var resources := runner.GetResourceContent(ResourceType);
    if resources.Failure? {
      return Some(resources.error);
    }
    var blocks := resources.value;
    var i := 0;
    while i < |blocks|
      invariant 0 <= i <= |blocks|
      invariant Produced(runner, old(runner.issues), None, ForEach(blocks[..i], runner.env, ResourceIssues))
    {
      ForEachStep(blocks, i, runner.env, ResourceIssues);
      err := CheckResource(runner, blocks[i]);
      Extend(old(runner.issues), ForEach(blocks[..i], runner.env, ResourceIssues), ResourceIssues(blocks[i], runner.env));
      if err.Some? {
        ForEachStopsAtError(blocks, i + 1, runner.env, ResourceIssues);
        return;
      }
      i := i + 1;
    }
    assert blocks[..i] == blocks;
    return None;
  }

  /** What a resource must satisfy to draw no issue and no error. */
  predicate Clean(b: Block, env: Env) {
    (forall a :: a in RequiredAttrs ==> Has(b, a))
    && StrIs(b, env, "match_resource_type", NonEmpty)
  }

  /** A resource draws no issue and no error exactly when it is clean. */
  lemma Passes(b: Block, env: Env)
    ensures ResourceIssues(b, env) == Pass <==> Clean(b, env)
  {
    var o0 := Ok(Missing(RuleName, b, RequiredAttrs, AttributeMustBeSpecified));
    var s1 := Valid(RuleName, b, env, "match_resource_type", NonEmpty, MatchResourceTypeEmpty);
    ThenPass(o0, s1);
    MissingNone(RuleName, b, RequiredAttrs, AttributeMustBeSpecified);
    ValidPass(RuleName, b, env, "match_resource_type", NonEmpty, MatchResourceTypeEmpty);
  }
}
