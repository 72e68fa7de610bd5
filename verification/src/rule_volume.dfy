/** rules/rule_ibm_is_volume.go */
module Volume {
  import opened Wrappers
  import opened Hcl
  import opened Tflint
  import opened Checks
  import opened Validators

  const RuleName := "ibm_is_volume"
  const ResourceType := "ibm_is_volume"
  const RequiredAttrs := ["name", "profile", "zone", "capacity"]
  const Profiles: set<GoString> := {"general-purpose", "custom", "5iops-tier", "10iops-tier"}
  const ProfileMsg := Text("profile must be one of: general-purpose, custom, 5iops-tier, 10iops-tier")
  const IopsMissing := Text("iops must be specified when profile is 'custom'")
  const CapacityMsg := Text("capacity must be between 10 and 16000 GB")
  const IopsMsg := Text("iops must be between 100 and 48000")

  /** What `Check` does with one resource block. */
  function ResourceIssues(b: Block, env: Env): Outcome {
    var o := Ok(Missing(RuleName, b, RequiredAttrs, AttributeMustBeSpecified));
    var o := Then(o, NameLength(RuleName, b, env, "name", NameEmpty, NameTooLong));
    var o := Then(o, EnumNeeding(RuleName, b, env, "profile", Profiles, ProfileMsg, "custom", "iops", IopsMissing));
    var o := Then(o, IntRange(RuleName, b, env, "capacity", 10, 16000, CapacityMsg));
    var o := Then(o, Valid(RuleName, b, env, "zone", IsValidZone, InvalidZone));
    Then(o, IntRange(RuleName, b, env, "iops", 100, 48000, IopsMsg))
  }

  method CheckResource(runner: Runner, b: Block) returns (err: Option<Error>)
    modifies runner
    ensures Produced(runner, old(runner.issues), err, ResourceIssues(b, runner.env))
  {
    err := None;
    CheckRequired(runner, RuleName, b, RequiredAttrs, AttributeMustBeSpecified);
    ghost var done := Ok(Missing(RuleName, b, RequiredAttrs, AttributeMustBeSpecified));
    ghost var step := NameLength(RuleName, b, runner.env, "name", NameEmpty, NameTooLong);
    err := CheckNameLength(runner, RuleName, b, "name", NameEmpty, NameTooLong);
    Extend(old(runner.issues), done, step);
    if err.Some? {
      return;
    }
    done := Then(done, step);
    step := EnumNeeding(RuleName, b, runner.env, "profile", Profiles, ProfileMsg, "custom", "iops", IopsMissing);
    err := CheckEnumNeeding(runner, RuleName, b, "profile", Profiles, ProfileMsg, "custom", "iops", IopsMissing);
    Extend(old(runner.issues), done, step);
    if err.Some? {
      return;
    }
    done := Then(done, step);
    step := IntRange(RuleName, b, runner.env, "capacity", 10, 16000, CapacityMsg);
    err := CheckIntRange(runner, RuleName, b, "capacity", 10, 16000, CapacityMsg);
    Extend(old(runner.issues), done, step);
    if err.Some? {
      return;
    }
    done := Then(done, step);
    step := Valid(RuleName, b, runner.env, "zone", IsValidZone, InvalidZone);
    err := CheckValid(runner, RuleName, b, "zone", IsValidZone, InvalidZone);
    Extend(old(runner.issues), done, step);
    if err.Some? {
      return;
    }
    done := Then(done, step);
    step := IntRange(RuleName, b, runner.env, "iops", 100, 48000, IopsMsg);
    err := CheckIntRange(runner, RuleName, b, "iops", 100, 48000, IopsMsg);
    Extend(old(runner.issues), done, step);
  }

  method Check(runner: Runner) returns (err: Option<Error>)
    modifies runner
    ensures Produced(runner, old(runner.issues), err, RunRule(runner.content, ResourceType, runner.env, ResourceIssues))
  {
    var resources := runner.GetResourceContent(ResourceType);
    if resources.Failure? {
      return Some(resources.error);
    }
    var blocks := resources.value;
    var i := 0;
    while i < |blocks|
      invariant 0 <= i <= |blocks|
      invariant Produced(runner, old(runner.issues), None, ForEach(blocks[..i], runner.env, ResourceIssues))
    {
      ForEachStep(blocks, i, runner.env, ResourceIssues);
      err := CheckResource(runner, blocks[i]);
      Extend(old(runner.issues), ForEach(blocks[..i], runner.env, ResourceIssues), ResourceIssues(blocks[i], runner.env));
      if err.Some? {
        ForEachStopsAtError(blocks, i + 1, runner.env, ResourceIssues);
        return;
      }
      i := i + 1;
    }
    assert blocks[..i] == blocks;
    return None;
  }

  /** What a resource must satisfy to draw no issue and no error. */
  predicate Clean(b: Block, env: Env) {
    (forall a :: a in RequiredAttrs ==> Has(b, a))
    && NameOk(b, env, "name")
    && StrInNeeding(b, env, "profile", Profiles, "custom", "iops")
    && IntIn(b, env, "capacity", 10, 16000)
    && StrIs(b, env, "zone", IsValidZone)
    && IntIn(b, env, "iops", 100, 48000)
  }

  /** A resource draws no issue and no error exactly when it is clean. */
  lemma Passes(b: Block, env: Env)
    ensures ResourceIssues(b, env) == Pass <==> Clean(b, env)
  {
    var o0 := Ok(Missing(RuleName, b, RequiredAttrs, AttributeMustBeSpecified));
    var s1 := NameLength(RuleName, b, env, "name", NameEmpty, NameTooLong);
    ThenPass(o0, s1);
    var o1 := Then(o0, s1);
    var s2 := EnumNeeding(RuleName, b, env, "profile", Profiles, ProfileMsg, "custom", "iops", IopsMissing);
    ThenPass(o1, s2);
    var o2 := Then(o1, s2);
    var s3 := IntRange(RuleName, b, env, "capacity", 10, 16000, CapacityMsg);
    ThenPass(o2, s3);
    var o3 := Then(o2, s3);
    var s4 := Valid(RuleName, b, env, "zone", IsValidZone, InvalidZone);
    ThenPass(o3, s4);
    var o4 := Then(o3, s4);
    var s5 := IntRange(RuleName, b, env, "iops", 100, 48000, IopsMsg);
    ThenPass(o4, s5);
    MissingNone(RuleName, b, RequiredAttrs, AttributeMustBeSpecified);
    NameLengthPass(RuleName, b, env, "name", NameEmpty, NameTooLong);
    EnumNeedingPass(RuleName, b, env, "profile", Profiles, ProfileMsg, "custom", "iops", IopsMissing);
    IntRangePass(RuleName, b, env, "capacity", 10, 16000, CapacityMsg);
    ValidPass(RuleName, b, env, "zone", IsValidZone, InvalidZone);
    IntRangePass(RuleName, b, env, "iops", 100, 48000, IopsMsg);
  }

  /** A `custom` profile asks for `iops`; the tiered profiles never do. */
  lemma CustomNeedsIops(b: Block, env: Env)
    requires Has(b, "profile") && env.str(ExprOf(b, "profile")).Success?
    ensures EnumNeeding(RuleName, b, env, "profile", Profiles, ProfileMsg, "custom", "iops", IopsMissing).issues
         == if env.str(ExprOf(b, "profile")).value !in Profiles then [Issue(RuleName, ProfileMsg, ExprOf(b, "profile").range)]
            else if env.str(ExprOf(b, "profile")).value == "custom" && !Has(b, "iops")
            then [Issue(RuleName, IopsMissing, ExprOf(b, "profile").range)]
            else []
  {
    EnumNeedingOne(RuleName, b, env, "profile", Profiles, ProfileMsg, "custom", "iops", IopsMissing);
  }
}
