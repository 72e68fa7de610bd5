/** rules/rule_ibm_is_image.go */
module Image {
  import opened Wrappers
  import opened Hcl
  import opened Tflint
  import opened Checks
  import opened Validators

  const RuleName := "ibm_is_image"
  const ResourceType := "ibm_is_image"
  const RequiredAttrs := ["name", "href", "operating_system"]
  const HrefMsg := Text("href must be a valid Cloud Object Storage URL")
  const KeysTogether := Text("both encrypted_data_key and encryption_key must be specified together for encryption")

  /** What `Check` does with one resource block. */
  function ResourceIssues(b: Block, env: Env): Outcome {
    var o := Ok(Missing(RuleName, b, RequiredAttrs, AttributeMustBeSpecified));
    var o := Then(o, NameLength(RuleName, b, env, "name", NameEmpty, NameTooLong));
    var o := Then(o, Valid(RuleName, b, env, "href", IsValidCOSURL, HrefMsg));
    Then(o, Ok(Together(RuleName, b, "encrypted_data_key", "encryption_key", KeysTogether)))
  }

  method CheckResource(runner: Runner, b: Block) returns (err: Option<Error>)
    modifies runner
    ensures Produced(runner, old(runner.issues), err, ResourceIssues(b, runner.env))
  {
    err := None;
    CheckRequired(runner, RuleName, b, RequiredAttrs, AttributeMustBeSpecified);
    ghost var done := Ok(Missing(RuleName, b, RequiredAttrs, AttributeMustBeSpecified));
    ghost var step := NameLength(RuleName, b, runner.env, "name", NameEmpty, NameTooLong);
    err := CheckNameLength(runner, RuleName, b, "name", NameEmpty, NameTooLong);
    Extend(old(runner.issues), done, step);
    if err.Some? {
      return;
    }
    done := Then(done, step);
    step := Valid(RuleName, b, runner.env, "href", IsValidCOSURL, HrefMsg);
    err := CheckValid(runner, RuleName, b, "href", IsValidCOSURL, HrefMsg);
    Extend(old(runner.issues), done, step);
    if err.Some? {
      return;
    }
    done := Then(done, step);
    step := Ok(Together(RuleName, b, "encrypted_data_key", "encryption_key", KeysTogether));
    CheckTogether(runner, RuleName, b, "encrypted_data_key", "encryption_key", KeysTogether);
    err := None;
    Extend(old(runner.issues), done, step);
  }

  method Check(runner: Runner) returns (err: Option<Error>)
    modifies runner
    ensures Produced(runner, old(runner.issues), err, RunRule(runner.content, ResourceType, runner.env, ResourceIssues))
  {
    var resources := runner.GetResourceContent(ResourceType);
    if resources.Failure? {
      return Some(resources.error);
    }
    var blocks := resources.value;
    var i := 0;
    while i < |blocks|
      invariant 0 <= i <= |blocks|
      invariant Produced(runner, old(runner.issues), None, ForEach(blocks[..i], runner.env, ResourceIssues))
    {
      ForEachStep(blocks, i, runner.env, ResourceIssues);
      err := CheckResource(runner, blocks[i]);
      Extend(old(runner.issues), ForEach(blocks[..i], runner.env, ResourceIssues), ResourceIssues(blocks[i], runner.env));
      if err.Some? {
        ForEachStopsAtError(blocks, i + 1, runner.env, ResourceIssues);
        return;
      }
      i := i + 1;
    }
    assert blocks[..i] == blocks;
    return None;
  }

  /** What a resource must satisfy to draw no issue and no error. */
  predicate Clean(b: Block, env: Env) {
    (forall a :: a in RequiredAttrs ==> Has(b, a))
    && NameOk(b, env, "name")
    && StrIs(b, env, "href", IsValidCOSURL)
    && (Has(b, "encrypted_data_key") <==> Has(b, "encryption_key"))
  }

  /** A resource draws no issue and no error exactly when it is clean. */
  lemma Passes(b: Block, env: Env)
    ensures ResourceIssues(b, env) == Pass <==> Clean(b, env)
  {
    var o0 := Ok(Missing(RuleName, b, RequiredAttrs, AttributeMustBeSpecified));
    var s1 := NameLength(RuleName, b, env, "name", NameEmpty, NameTooLong);
    ThenPass(o0, s1);
    var o1 := Then(o0, s1);
    var s2 := Valid(RuleName, b, env, "href", IsValidCOSURL, HrefMsg);
    ThenPass(o1, s2);
    var o2 := Then(o1, s2);
    var s3 := Ok(Together(RuleName, b, "encrypted_data_key", "encryption_key", KeysTogether));
    ThenPass(o2, s3);
    MissingNone(RuleName, b, RequiredAttrs, AttributeMustBeSpecified);
    NameLengthPass(RuleName, b, env, "name", NameEmpty, NameTooLong);
    ValidPass(RuleName, b, env, "href", IsValidCOSURL, HrefMsg);
  }
}
