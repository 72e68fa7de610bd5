/** rules/rule_ibm_is_dedicated_host_group.go */
module DedicatedHostGroup {
  import opened Wrappers
  import opened Hcl
  import opened Tflint
  import opened Checks
  import opened Validators

  const RuleName := "ibm_is_dedicated_host_group"
  const ResourceType := "ibm_is_dedicated_host_group"
  const RequiredAttrs := ["family", "class", "zone", "name"]
  const Families: set<GoString> := {"memory", "balanced", "compute"}
  const FamilyMsg := Text("family must be one of: memory, balanced, compute")
  const Classes: set<GoString> := {"bx2d", "mx2d", "cx2d"}
  const ClassMsg := Text("class must be one of: bx2d, mx2d, cx2d")

  /** What `Check` does with one resource block. */
  function ResourceIssues(b: Block, env: Env): Outcome {
    var o := Ok(Missing(RuleName, b, RequiredAttrs, AttributeMustBeSpecified));
    var o := Then(o, Enum(RuleName, b, env, "family", Families, FamilyMsg));
    var o := Then(o, Enum(RuleName, b, env, "class", Classes, ClassMsg));
    var o := Then(o, Valid(RuleName, b, env, "name", NonEmpty, NameEmpty));
    Then(o, Valid(RuleName, b, env, "zone", IsValidZone, InvalidZone))
  }

  method CheckResource(runner: Runner, b: Block) returns (err: Option<Error>)
    modifies runner
    ensures Produced(runner, old(runner.issues), err, ResourceIssues(b, runner.env))
  {
    err := None;
    CheckRequired(runner, RuleName, b, RequiredAttrs, AttributeMustBeSpecified);
    ghost var done := Ok(Missing(RuleName, b, RequiredAttrs, AttributeMustBeSpecified));
    ghost var step := Enum(RuleName, b, runner.env, "family", Families, FamilyMsg);
    err := CheckEnum(runner, RuleName, b, "family", Families, FamilyMsg);
    Extend(old(runner.issues), done, step);
    if err.Some? {
      return;
    }
    done := Then(done, step);
    step := Enum(RuleName, b, runner.env, "class", Classes, ClassMsg);
    err := CheckEnum(runner, RuleName, b, "class", Classes, ClassMsg);
    Extend(old(runner.issues), done, step);
    if err.Some? {
      return;
    }
    done := Then(done, step);
    step := Valid(RuleName, b, runner.env, "name", NonEmpty, NameEmpty);
    err := CheckValid(runner, RuleName, b, "name", NonEmpty, NameEmpty);
    Extend(old(runner.issues), done, step);
    if err.Some? {
      return;
    }
    done := Then(done, step);
    step := Valid(RuleName, b, runner.env, "zone", IsValidZone, InvalidZone);
    err := CheckValid(runner, RuleName, b, "zone", IsValidZone, InvalidZone);
    Extend(old(runner.issues), done, step);
  }

  method Check(runner: Runner) returns (err: Option<Error>)
    modifies runner
    ensures Produced(runner, old(runner.issues), err, RunRule(runner.content, ResourceType, runner.env, ResourceIssues))
  {
    var resources := runner.GetResourceContent(ResourceType);
    if resources.Failure? {
      return Some(resources.error);
    }
    var blocks := resources.value;
    var i := 0;
    while i < |blocks|
      invariant 0 <= i <= |blocks|
      invariant Produced(runner, old(runner.issues), None, ForEach(blocks[..i], runner.env, ResourceIssues))
    {
      ForEachStep(blocks, i, runner.env, ResourceIssues);
      err := CheckResource(runner, blocks[i]);
      Extend(old(runner.issues), ForEach(blocks[..i], runner.env, ResourceIssues), ResourceIssues(blocks[i], runner.env));
      if err.Some? {
        ForEachStopsAtError(blocks, i + 1, runner.env, ResourceIssues);
        return;
      }
      i := i + 1;
    }
    assert blocks[..i] == blocks;
    return None;
  }

  /** What a resource must satisfy to draw no issue and no error. */
  predicate Clean(b: Block, env: Env) {
    (forall a :: a in RequiredAttrs ==> Has(b, a))
    && StrIn(b, env, "family", Families)
    && StrIn(b, env, "class", Classes)
    && StrIs(b, env, "name", NonEmpty)
    && StrIs(b, env, "zone", IsValidZone)
  }

  /** A resource draws no issue and no error exactly when it is clean. */
  lemma Passes(b: Block, env: Env)
    ensures ResourceIssues(b, env) == Pass <==> Clean(b, env)
  {
    var o0 := Ok(Missing(RuleName, b, RequiredAttrs, AttributeMustBeSpecified));
    var s1 := Enum(RuleName, b, env, "family", Families, FamilyMsg);
    ThenPass(o0, s1);
    var o1 := Then(o0, s1);
    var s2 := Enum(RuleName, b, env, "class", Classes, ClassMsg);
    ThenPass(o1, s2);
    var o2 := Then(o1, s2);
    var s3 := Valid(RuleName, b, env, "name", NonEmpty, NameEmpty);
    ThenPass(o2, s3);
    var o3 := Then(o2, s3);
    var s4 := Valid(RuleName, b, env, "zone", IsValidZone, InvalidZone);
    ThenPass(o3, s4);
    MissingNone(RuleName, b, RequiredAttrs, AttributeMustBeSpecified);
    EnumPass(RuleName, b, env, "family", Families, FamilyMsg);
    EnumPass(RuleName, b, env, "class", Classes, ClassMsg);
    ValidPass(RuleName, b, env, "name", NonEmpty, NameEmpty);
    ValidPass(RuleName, b, env, "zone", IsValidZone, InvalidZone);
  }
}
