/** rules/rule_ibm_is_instance_volume_attachment.go */
module InstanceVolumeAttachment {
  import opened Wrappers
  import opened Hcl
  import opened Tflint
  import opened Checks

  const RuleName := "ibm_is_instance_volume_attachment"
  const ResourceType := "ibm_is_instance_volume_attachment"
  const RequiredAttrs := ["instance", "name"]
  const VolumeMissing := Text("either volume or volume_name must be specified")
  const VolumeTwice := Text("cannot specify both volume and volume_name")
  const Profiles: set<GoString> := {"general-purpose", "custom", "5iops-tier", "10iops-tier"}
  const ProfileMsg := Text("invalid volume profile specified")
  const CapacityMsg := Text("capacity must be between 10 and 2000 GB")

  /** What `Check` does with one resource block. */
  function ResourceIssues(b: Block, env: Env): Outcome {
    var o := Ok(Missing(RuleName, b, RequiredAttrs, AttributeMustBeSpecified));
    var o := Then(o, Ok(OneOf(RuleName, b, Has(b, "volume"), Has(b, "volume_name"), VolumeTwice, VolumeMissing)));
    var o := Then(o, NameLength(RuleName, b, env, "name", NameEmpty, NameTooLong));
    var o := Then(o, Enum(RuleName, b, env, "profile", Profiles, ProfileMsg));
    Then(o, IntRange(RuleName, b, env, "capacity", 10, 2000, CapacityMsg))
  }

  method CheckResource(runner: Runner, b: Block) returns (err: Option<Error>)
    modifies runner
    ensures Produced(runner, old(runner.issues), err, ResourceIssues(b, runner.env))
  {
    err := None;
    CheckRequired(runner, RuleName, b, RequiredAttrs, AttributeMustBeSpecified);
    ghost var done := Ok(Missing(RuleName, b, RequiredAttrs, AttributeMustBeSpecified));
    ghost var step := Ok(OneOf(RuleName, b, Has(b, "volume"), Has(b, "volume_name"), VolumeTwice, VolumeMissing));
    CheckOneOf(runner, RuleName, b, "volume" in b.body.attributes, "volume_name" in b.body.attributes, VolumeTwice, VolumeMissing);
    Extend(old(runner.issues), done, step);
    done := Then(done, step);
    step := NameLength(RuleName, b, runner.env, "name", NameEmpty, NameTooLong);
    err := CheckNameLength(runner, RuleName, b, "name", NameEmpty, NameTooLong);
    Extend(old(runner.issues), done, step);
    if err.Some? {
      return;
    }
    done := Then(done, step);
    step := Enum(RuleName, b, runner.env, "profile", Profiles, ProfileMsg);
    err := CheckEnum(runner, RuleName, b, "profile", Profiles, ProfileMsg);
    Extend(old(runner.issues), done, step);
    if err.Some? {
      return;
    }
    done := Then(done, step);
    step := IntRange(RuleName, b, runner.env, "capacity", 10, 2000, CapacityMsg);
    err := CheckIntRange(runner, RuleName, b, "capacity", 10, 2000, CapacityMsg);
    Extend(old(runner.issues), done, step);
  }

  method Check(runner: Runner) returns (err: Option<Error>)
    modifies runner
    ensures Produced(runner, old(runner.issues), err, RunRule(runner.content, ResourceType, runner.env, ResourceIssues))
  {
    var resources := runner.GetResourceContent(ResourceType);
    if resources.Failure? {
      return Some(resources.error);
    }
    var blocks := resources.value;
    var i := 0;
    while i < |blocks|
      invariant 0 <= i <= |blocks|
      invariant Produced(runner, old(runner.issues), None, ForEach(blocks[..i], runner.env, ResourceIssues))
    {
      ForEachStep(blocks, i, runner.env, ResourceIssues);
      err := CheckResource(runner, blocks[i]);
      Extend(old(runner.issues), ForEach(blocks[..i], runner.env, ResourceIssues), ResourceIssues(blocks[i], runner.env));
      if err.Some? {
        ForEachStopsAtError(blocks, i + 1, runner.env, ResourceIssues);
        return;
      }
      i := i + 1;
    }
    assert blocks[..i] == blocks;
    return None;
  }

  /** What a resource must satisfy to draw no issue and no error. */
  predicate Clean(b: Block, env: Env) {
    (forall a :: a in RequiredAttrs ==> Has(b, a))
    && Has(b, "volume") != Has(b, "volume_name")
    && NameOk(b, env, "name")
    && StrIn(b, env, "profile", Profiles)
    && IntIn(b, env, "capacity", 10, 2000)
  }

  /** A resource draws no issue and no error exactly when it is clean. */
  lemma Passes(b: Block, env: Env)
    ensures ResourceIssues(b, env) == Pass <==> Clean(b, env)
  {
    var o0 := Ok(Missing(RuleName, b, RequiredAttrs, AttributeMustBeSpecified));
    var s1 := Ok(OneOf(RuleName, b, Has(b, "volume"), Has(b, "volume_name"), VolumeTwice, VolumeMissing));
    ThenPass(o0, s1);
    var o1 := Then(o0, s1);
    var s2 := NameLength(RuleName, b, env, "name", NameEmpty, NameTooLong);
    ThenPass(o1, s2);
    var o2 := Then(o1, s2);
    var s3 := Enum(RuleName, b, env, "profile", Profiles, ProfileMsg);
    ThenPass(o2, s3);
    var o3 := Then(o2, s3);
    var s4 := IntRange(RuleName, b, env, "capacity", 10, 2000, CapacityMsg);
    ThenPass(o3, s4);
    MissingNone(RuleName, b, RequiredAttrs, AttributeMustBeSpecified);
    NameLengthPass(RuleName, b, env, "name", NameEmpty, NameTooLong);
    EnumPass(RuleName, b, env, "profile", Profiles, ProfileMsg);
    IntRangePass(RuleName, b, env, "capacity", 10, 2000, CapacityMsg);
  }
}
