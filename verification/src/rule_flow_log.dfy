/** rules/rule_ibm_is_flow_log.go */
module FlowLog {
  import opened Wrappers
  import opened Hcl
  import opened Tflint
  import opened Checks

  const RuleName := "ibm_is_flow_log"
  const ResourceType := "ibm_is_flow_log"
  const RequiredAttrs := ["name", "target", "storage_bucket"]
  const TargetEmpty := Text("target cannot be empty")
  const BucketEmpty := Text("storage_bucket cannot be empty")

  /** What `Check` does with one resource block. */
  function ResourceIssues(b: Block, env: Env): Outcome {
    var o := Ok(Missing(RuleName, b, RequiredAttrs, AttributeMustBeSpecified));
    var o := Then(o, NameLength(RuleName, b, env, "name", NameEmpty, NameTooLong));
    var o := Then(o, Valid(RuleName, b, env, "target", NonEmpty, TargetEmpty));
    Then(o, Valid(RuleName, b, env, "storage_bucket", NonEmpty, BucketEmpty))
  }

  method CheckResource(runner: Runner, b: Block) returns (err: Option<Error>)
    modifies runner
    ensures Produced(runner, old(runner.issues), err, ResourceIssues(b, runner.env))
  {
    err := None;
    CheckRequired(runner, RuleName, b, RequiredAttrs, AttributeMustBeSpecified);
    ghost var done := Ok(Missing(RuleName, b, RequiredAttrs, AttributeMustBeSpecified));
    ghost var step := NameLength(RuleName, b, runner.env, "name", NameEmpty, NameTooLong);
    err := CheckNameLength(runner, RuleName, b, "name", NameEmpty, NameTooLong);
    Extend(old(runner.issues), done, step);
    if err.Some? {
      return;
    }
    done := Then(done, step);
    step := Valid(RuleName, b, runner.env, "target", NonEmpty, TargetEmpty);
    err := CheckValid(runner, RuleName, b, "target", NonEmpty, TargetEmpty);
    Extend(old(runner.issues), done, step);
    if err.Some? {
      return;
    }
    done := Then(done, step);
    step := Valid(RuleName, b, runner.env, "storage_bucket", NonEmpty, BucketEmpty);
    err := CheckValid(runner, RuleName, b, "storage_bucket", NonEmpty, BucketEmpty);
    Extend(old(runner.issues), done, step);
  }

  method Check(runner: Runner) returns (err: Option<Error>)
    modifies runner
    ensures Produced(runner, old(runner.issues), err, RunRule(runner.content, ResourceType, runner.env, ResourceIssues))
  {
    var resources := runner.GetResourceContent(ResourceType);
    if resources.Failure? {
      return Some(resources.error);
    }
    var blocks := resources.value;
    var i := 0;
    while i < |blocks|
      invariant 0 <= i <= |blocks|
      invariant Produced(runner, old(runner.issues), None, ForEach(blocks[..i], runner.env, ResourceIssues))
    {
      ForEachStep(blocks, i, runner.env, ResourceIssues);
      err := CheckResource(runner, blocks[i]);
      Extend(old(runner.issues), ForEach(blocks[..i], runner.env, ResourceIssues), ResourceIssues(blocks[i], runner.env));
      if err.Some? {
        ForEachStopsAtError(blocks, i + 1, runner.env, ResourceIssues);
        return;
      }
      i := i + 1;
    }
    assert blocks[..i] == blocks;
    return None;
  }

  /** What a resource must satisfy to draw no issue and no error. */
  predicate Clean(b: Block, env: Env) {
    (forall a :: a in RequiredAttrs ==> Has(b, a))
    && NameOk(b, env, "name")
    && StrIs(b, env, "target", NonEmpty)
    && StrIs(b, env, "storage_bucket", NonEmpty)
  }

  /** A resource draws no issue and no error exactly when it is clean. */
  lemma Passes(b: Block, env: Env)
    ensures ResourceIssues(b, env) == Pass <==> Clean(b, env)
  {
    var o0 := Ok(Missing(RuleName, b, RequiredAttrs, AttributeMustBeSpecified));
    var s1 := NameLength(RuleName, b, env, "name", NameEmpty, NameTooLong);
    ThenPass(o0, s1);
    var o1 := Then(o0, s1);
    var s2 := Valid(RuleName, b, env, "target", NonEmpty, TargetEmpty);
    ThenPass(o1, s2);
    var o2 := Then(o1, s2);
    var s3 := Valid(RuleName, b, env, "storage_bucket", NonEmpty, BucketEmpty);
    ThenPass(o2, s3);
    MissingNone(RuleName, b, RequiredAttrs, AttributeMustBeSpecified);
    NameLengthPass(RuleName, b, env, "name", NameEmpty, NameTooLong);
    ValidPass(RuleName, b, env, "target", NonEmpty, TargetEmpty);
    ValidPass(RuleName, b, env, "storage_bucket", NonEmpty, BucketEmpty);
  }
}
