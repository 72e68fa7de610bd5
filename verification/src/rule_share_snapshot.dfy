/** rules/rule_ibm_is_share_snapshot.go */
module ShareSnapshot {
  import opened Wrappers
  import opened Hcl
  import opened Tflint
  import opened Checks

  const RuleName := "ibm_is_share_snapshot"
  const ResourceType := "ibm_is_share_snapshot"
  const RequiredAttrs := ["name", "share"]
  const TagTooLong := Text("tag length cannot exceed 128 characters")

  /** `len(tag) > 128` is reported. */
  predicate TagFits(s: GoString) {
    |s| <= 128
  }

  /** What `Check` does with one resource block. */
  function ResourceIssues(b: Block, env: Env): Outcome {
    var o := Ok(Missing(RuleName, b, RequiredAttrs, AttributeMustBeSpecified));
    var o := Then(o, NameLength(RuleName, b, env, "name", NameEmpty, NameTooLong));
    Then(o, Elements(RuleName, b, env, "tags", TagFits, TagTooLong))
  }

  method CheckResource(runner: Runner, b: Block) returns (err: Option<Error>)
    modifies runner
    ensures Produced(runner, old(runner.issues), err, ResourceIssues(b, runner.env))
  {
    err := None;
    CheckRequired(runner, RuleName, b, RequiredAttrs, AttributeMustBeSpecified);
    ghost var done := Ok(Missing(RuleName, b, RequiredAttrs, AttributeMustBeSpecified));
    ghost var step := NameLength(RuleName, b, runner.env, "name", NameEmpty, NameTooLong);
    err := CheckNameLength(runner, RuleName, b, "name", NameEmpty, NameTooLong);
    Extend(old(runner.issues), done, step);
    if err.Some? {
      return;
    }
    done := Then(done, step);
    step := Elements(RuleName, b, runner.env, "tags", TagFits, TagTooLong);
    err := CheckElements(runner, RuleName, b, "tags", TagFits, TagTooLong);
    Extend(old(runner.issues), done, step);
  }

  method Check(runner: Runner) returns (err: Option<Error>)
    modifies runner
    ensures Produced(runner, old(runner.issues), err, RunRule(runner.content, ResourceType, runner.env, ResourceIssues))
  {
    var resources := runner.GetResourceContent(ResourceType);
    if resources.Failure? {
      return Some(resources.error);
    }
    var blocks := resources.value;
    var i := 0;
    while i < |blocks|
      invariant 0 <= i <= |blocks|
      invariant Produced(runner, old(runner.issues), None, ForEach(blocks[..i], runner.env, ResourceIssues))
    {
      ForEachStep(blocks, i, runner.env, ResourceIssues);
      err := CheckResource(runner, blocks[i]);
      Extend(old(runner.issues), ForEach(blocks[..i], runner.env, ResourceIssues), ResourceIssues(blocks[i], runner.env));
      if err.Some? {
        ForEachStopsAtError(blocks, i + 1, runner.env, ResourceIssues);
        return;
      }
      i := i + 1;
    }
    assert blocks[..i] == blocks;
    return None;
  }

  /** What a resource must satisfy to draw no issue and no error. */
  predicate Clean(b: Block, env: Env) {
    (forall a :: a in RequiredAttrs ==> Has(b, a))
    && NameOk(b, env, "name")
    && AllElements(b, env, "tags", TagFits)
  }

  /** A resource draws no issue and no error exactly when it is clean. */
  lemma Passes(b: Block, env: Env)
    ensures ResourceIssues(b, env) == Pass <==> Clean(b, env)
  {
    var o0 := Ok(Missing(RuleName, b, RequiredAttrs, AttributeMustBeSpecified));
    var s1 := NameLength(RuleName, b, env, "name", NameEmpty, NameTooLong);
    ThenPass(o0, s1);
    var o1 := Then(o0, s1);
    var s2 := Elements(RuleName, b, env, "tags", TagFits, TagTooLong);
    ThenPass(o1, s2);
    MissingNone(RuleName, b, RequiredAttrs, AttributeMustBeSpecified);
    NameLengthPass(RuleName, b, env, "name", NameEmpty, NameTooLong);
    ElementsPass(RuleName, b, env, "tags", TagFits, TagTooLong);
  }

  /** Every over-long tag is reported once, at the `tags` expression. */
  lemma TagsReportedOnce(b: Block, env: Env)
    requires Has(b, "tags") && env.strs(ExprOf(b, "tags")).Success?
    ensures |Elements(RuleName, b, env, "tags", TagFits, TagTooLong).issues|
         == |Rejected(env.strs(ExprOf(b, "tags")).value, TagFits)|
    ensures forall t :: t in Rejected(env.strs(ExprOf(b, "tags")).value, TagFits) ==> |t| > 128
  {
    ElementIssuesCount(env.strs(ExprOf(b, "tags")).value, TagFits, Issue(RuleName, TagTooLong, ExprOf(b, "tags").range));
  }
}
