/** rules/rule_ibm_is_bare_metal_server_initialization.go */
module BareMetalServerInitialization {
  import opened Wrappers
  import opened Hcl
  import opened Tflint
  import opened Checks

  const RuleName := "ibm_is_bare_metal_server_initialization"
  const ResourceType := "ibm_is_bare_metal_server_initialization"
  const RequiredAttrs := ["bare_metal_server", "image", "keys"]
  const NoKeys := Text("at least one SSH key must be specified")
  const UserDataTooLarge := Text("user_data exceeds maximum size of 16KB")

  /** `len(userData) > 16384` is reported. */
  predicate WithinUserDataLimit(s: GoString) {
    |s| <= 16384
  }

  /** What `Check` does with one resource block. */
  function ResourceIssues(b: Block, env: Env): Outcome {
    var o := Ok(Missing(RuleName, b, RequiredAttrs, AttributeMustBeSpecified));
    var o := Then(o, ValidList(RuleName, b, env, "keys", NonEmptyList, NoKeys));
    Then(o, Valid(RuleName, b, env, "user_data", WithinUserDataLimit, UserDataTooLarge))
  }

  method CheckResource(runner: Runner, b: Block) returns (err: Option<Error>)
    modifies runner
    ensures Produced(runner, old(runner.issues), err, ResourceIssues(b, runner.env))
  {
    err := None;
    CheckRequired(runner, RuleName, b, RequiredAttrs, AttributeMustBeSpecified);
    ghost var done := Ok(Missing(RuleName, b, RequiredAttrs, AttributeMustBeSpecified));
    ghost var step := ValidList(RuleName, b, runner.env, "keys", NonEmptyList, NoKeys);
    err := CheckValidList(runner, RuleName, b, "keys", NonEmptyList, NoKeys);
    Extend(old(runner.issues), done, step);
    if err.Some? {
      return;
    }
    done := Then(done, step);
    step := Valid(RuleName, b, runner.env, "user_data", WithinUserDataLimit, UserDataTooLarge);
    err := CheckValid(runner, RuleName, b, "user_data", WithinUserDataLimit, UserDataTooLarge);
    Extend(old(runner.issues), done, step);
  }

  method Check(runner: Runner) returns (err: Option<Error>)
    modifies runner
    ensures Produced(runner, old(runner.issues), err, RunRule(runner.content, ResourceType, runner.env, ResourceIssues))
  {
    var resources := runner.GetResourceContent(ResourceType);
    if resources.Failure? {
      return Some(resources.error);
    }
    var blocks := resources.value;
    var i := 0;
    while i < |blocks|
      invariant 0 <= i <= |blocks|
      invariant Produced(runner, old(runner.issues), None, ForEach(blocks[..i], runner.env, ResourceIssues))
    {
      ForEachStep(blocks, i, runner.env, ResourceIssues);
      err := CheckResource(runner, blocks[i]);
      Extend(old(runner.issues), ForEach(blocks[..i], runner.env, ResourceIssues), ResourceIssues(blocks[i], runner.env));
      if err.Some? {
        ForEachStopsAtError(blocks, i + 1, runner.env, ResourceIssues);
        return;
      }
      i := i + 1;
    }
    assert blocks[..i] == blocks;
    return None;
  }

  /** What a resource must satisfy to draw no issue and no error. */
  predicate Clean(b: Block, env: Env) {
    (forall a :: a in RequiredAttrs ==> Has(b, a))
    && ListIs(b, env, "keys", NonEmptyList)
    && StrIs(b, env, "user_data", WithinUserDataLimit)
  }

  /** A resource draws no issue and no error exactly when it is clean. */
  lemma Passes(b: Block, env: Env)
    ensures ResourceIssues(b, env) == Pass <==> Clean(b, env)
  {
    var o0 := Ok(Missing(RuleName, b, RequiredAttrs, AttributeMustBeSpecified));
    var s1 := ValidList(RuleName, b, env, "keys", NonEmptyList, NoKeys);
    ThenPass(o0, s1);
    var o1 := Then(o0, s1);
    var s2 := Valid(RuleName, b, env, "user_data", WithinUserDataLimit, UserDataTooLarge);
    ThenPass(o1, s2);
    MissingNone(RuleName, b, RequiredAttrs, AttributeMustBeSpecified);
    ValidListPass(RuleName, b, env, "keys", NonEmptyList, NoKeys);
    ValidPass(RuleName, b, env, "user_data", WithinUserDataLimit, UserDataTooLarge);
  }
}
