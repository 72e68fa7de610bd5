/** rules/rule_ibm_is_image_obsolete.go */
module ImageObsolete {
  import opened Wrappers
  import opened Hcl
  import opened Tflint
  import opened Checks

  const RuleName := "ibm_is_image_obsolete"
  const ResourceType := "ibm_is_image_obsolete"
  const RequiredAttrs := ["image"]

  /** What `Check` does with one resource block. */
  function ResourceIssues(b: Block, env: Env): Outcome {
    Ok(Missing(RuleName, b, RequiredAttrs, MustBeSpecified))
  }

  method CheckResource(runner: Runner, b: Block)
    modifies runner
    ensures Produced(runner, old(runner.issues), None, ResourceIssues(b, runner.env))
  {
    CheckRequired(runner, RuleName, b, RequiredAttrs, MustBeSpecified);
  }

  method Check(runner: Runner) returns (err: Option<Error>)
    modifies runner
    ensures Produced(runner, old(runner.issues), err, RunRule(runner.content, ResourceType, runner.env, ResourceIssues))
  {
    var resources := runner.GetResourceContent(ResourceType);
    if resources.Failure? {
      return Some(resources.error);
    }
    var blocks := resources.value;
    var i := 0;
    while i < |blocks|
      invariant 0 <= i <= |blocks|
      invariant Produced(runner, old(runner.issues), None, ForEach(blocks[..i], runner.env, ResourceIssues))
    {
      ForEachAppend(old(runner.issues), blocks, i, runner.env, ResourceIssues);
      CheckResource(runner, blocks[i]);
      i := i + 1;
    }
    assert blocks[..i] == blocks;
    return None;
  }

  /** What a resource must satisfy to draw no issue and no error. */
  predicate Clean(b: Block, env: Env) {
    (forall a :: a in RequiredAttrs ==> Has(b, a))
  }

  /** A resource draws no issue and no error exactly when it is clean. */
  lemma Passes(b: Block, env: Env)
    ensures ResourceIssues(b, env) == Pass <==> Clean(b, env)
  {
    MissingNone(RuleName, b, RequiredAttrs, MustBeSpecified);
  }
}
