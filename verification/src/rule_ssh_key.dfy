/** rules/rule_ibm_is_ssh_key.go */
module SshKey {
  import opened Wrappers
  import opened Hcl
  import opened Tflint
  import opened Checks
  import opened Validators

  const RuleName := "ibm_is_ssh_key"
  const ResourceType := "ibm_is_ssh_key"
  const RequiredAttrs := ["name", "public_key"]
  const PublicKeyMsg := Text("invalid SSH public key format")
  const Types: set<GoString> := {"rsa", "ed25519"}
  const TypeMsg := Text("type must be either 'rsa' or 'ed25519'")

  /** What `Check` does with one resource block. */
  function ResourceIssues(b: Block, env: Env): Outcome {
    var o := Ok(Missing(RuleName, b, RequiredAttrs, AttributeMustBeSpecified));
    var o := Then(o, NameLength(RuleName, b, env, "name", NameEmpty, NameTooLong));
    var o := Then(o, Valid(RuleName, b, env, "public_key", IsValidPublicKey, PublicKeyMsg));
    Then(o, Enum(RuleName, b, env, "type", Types, TypeMsg))
  }

  method CheckResource(runner: Runner, b: Block) returns (err: Option<Error>)
    modifies runner
    ensures Produced(runner, old(runner.issues), err, ResourceIssues(b, runner.env))
  {
    err := None;
    CheckRequired(runner, RuleName, b, RequiredAttrs, AttributeMustBeSpecified);
    ghost var done := Ok(Missing(RuleName, b, RequiredAttrs, AttributeMustBeSpecified));
    ghost var step := NameLength(RuleName, b, runner.env, "name", NameEmpty, NameTooLong);
    err := CheckNameLength(runner, RuleName, b, "name", NameEmpty, NameTooLong);
    Extend(old(runner.issues), done, step);
    if err.Some? {
      return;
    }
    done := Then(done, step);
    step := Valid(RuleName, b, runner.env, "public_key", IsValidPublicKey, PublicKeyMsg);
    err := CheckValid(runner, RuleName, b, "public_key", IsValidPublicKey, PublicKeyMsg);
    Extend(old(runner.issues), done, step);
    if err.Some? {
      return;
    }
    done := Then(done, step);
    step := Enum(RuleName, b, runner.env, "type", Types, TypeMsg);
    err := CheckEnum(runner, RuleName, b, "type", Types, TypeMsg);
    Extend(old(runner.issues), done, step);
  }

  method Check(runner: Runner) returns (err: Option<Error>)
    modifies runner
    ensures Produced(runner, old(runner.issues), err, RunRule(runner.content, ResourceType, runner.env, ResourceIssues))
  {
    var resources := runner.GetResourceContent(ResourceType);
    if resources.Failure? {
      return Some(resources.error);
    }
    var blocks := resources.value;
    var i := 0;
    while i < |blocks|
      invariant 0 <= i <= |blocks|
      invariant Produced(runner, old(runner.issues), None, ForEach(blocks[..i], runner.env, ResourceIssues))
    {
      ForEachStep(blocks, i, runner.env, ResourceIssues);
      err := CheckResource(runner, blocks[i]);
      Extend(old(runner.issues), ForEach(blocks[..i], runner.env, ResourceIssues), ResourceIssues(blocks[i], runner.env));
      if err.Some? {
        ForEachStopsAtError(blocks, i + 1, runner.env, ResourceIssues);
        return;
      }
      i := i + 1;
    }
    assert blocks[..i] == blocks;
    return None;
  }

  /** What a resource must satisfy to draw no issue and no error. */
  predicate Clean(b: Block, env: Env) {
    (forall a :: a in RequiredAttrs ==> Has(b, a))
    && NameOk(b, env, "name")
    && StrIs(b, env, "public_key", IsValidPublicKey)
    && StrIn(b, env, "type", Types)
  }

  /** A resource draws no issue and no error exactly when it is clean. */
  lemma Passes(b: Block, env: Env)
    ensures ResourceIssues(b, env) == Pass <==> Clean(b, env)
  {
    var o0 := Ok(Missing(RuleName, b, RequiredAttrs, AttributeMustBeSpecified));
    var s1 := NameLength(RuleName, b, env, "name", NameEmpty, NameTooLong);
    ThenPass(o0, s1);
    var o1 := Then(o0, s1);
    var s2 := Valid(RuleName, b, env, "public_key", IsValidPublicKey, PublicKeyMsg);
    ThenPass(o1, s2);
    var o2 := Then(o1, s2);
    var s3 := Enum(RuleName, b, env, "type", Types, TypeMsg);
    ThenPass(o2, s3);
    MissingNone(RuleName, b, RequiredAttrs, AttributeMustBeSpecified);
    NameLengthPass(RuleName, b, env, "name", NameEmpty, NameTooLong);
    ValidPass(RuleName, b, env, "public_key", IsValidPublicKey, PublicKeyMsg);
    EnumPass(RuleName, b, env, "type", Types, TypeMsg);
  }

  /** A blank `public_key` is always reported, whatever white space it holds. */
  lemma BlankKeyReported(b: Block, env: Env)
    requires Has(b, "public_key") && env.str(ExprOf(b, "public_key")).Success?
    requires AllSpace(env.str(ExprOf(b, "public_key")).value)
    ensures Valid(RuleName, b, env, "public_key", IsValidPublicKey, PublicKeyMsg)
         == Ok([Issue(RuleName, PublicKeyMsg, ExprOf(b, "public_key").range)])
  {
    PublicKeyIff(env.str(ExprOf(b, "public_key")).value);
  }
}
