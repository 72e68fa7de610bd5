/** rules/rule_ibm_is_image_export_job.go */
module ImageExportJob {
  import opened Wrappers
  import opened Hcl
  import opened Tflint
  import opened Checks

  const RuleName := "ibm_is_image_export_job"
  const ResourceType := "ibm_is_image_export_job"
  const RequiredAttrs := ["image", "name"]
  const Formats: set<GoString> := {"qcow2", "raw", "vhd", "vmdk"}
  const FormatMsg := Text("format must be one of: qcow2, raw, vhd, vmdk")
  const NoBucket := Text("storage_bucket block must be specified")
  const BucketNameMissing := Text("name attribute must be specified in storage_bucket block")

  /** One nested block: a `storage_bucket` block needs `name`. */
  function BucketIssues(b: Block, env: Env): Outcome {
    if b.typ != "storage_bucket" then Pass else
    Ok(Require(RuleName, b, "name", BucketNameMissing))
  }

  method CheckBucket(runner: Runner, b: Block)
    modifies runner
    ensures Produced(runner, old(runner.issues), None, BucketIssues(b, runner.env))
  {
    if b.typ != "storage_bucket" {
      return;
    }
    CheckRequire(runner, RuleName, b, "name", BucketNameMissing);
  }

  /** The `storage_bucket` loop, then the test on whether such a block exists. */
  function BucketsIssues(b: Block, env: Env): Outcome {
    Then(ForEach(b.body.blocks, env, BucketIssues),
         Ok(if AnyOfType(b.body.blocks, "storage_bucket") then [] else [Issue(RuleName, NoBucket, b.defRange)]))
  }

  /** The loop over the blocks nested in `b`, acting on the `storage_bucket` blocks. */
  method CheckBuckets(runner: Runner, b: Block)
    modifies runner
    ensures Produced(runner, old(runner.issues), None, BucketsIssues(b, runner.env))
  {
    var blocks := b.body.blocks;
    var hasStorageBucket := false;
    var i := 0;
    while i < |blocks|
      invariant 0 <= i <= |blocks|
      invariant hasStorageBucket == AnyOfType(blocks[..i], "storage_bucket")
      invariant Produced(runner, old(runner.issues), None, ForEach(blocks[..i], runner.env, BucketIssues))
    {
      AnyOfTypeStep(blocks, i, "storage_bucket");
      ForEachAppend(old(runner.issues), blocks, i, runner.env, BucketIssues);
      var blk := blocks[i];
      if blk.typ == "storage_bucket" {
        hasStorageBucket := true;
      }
      CheckBucket(runner, blk);
      i := i + 1;
    }
    assert blocks[..i] == blocks;
    ghost var loop := ForEach(blocks, runner.env, BucketIssues);
    if !hasStorageBucket {
      runner.EmitIssue(RuleName, NoBucket, b.defRange);
    }
    Extend(old(runner.issues), loop, Ok(if AnyOfType(blocks, "storage_bucket") then [] else [Issue(RuleName, NoBucket, b.defRange)]));
  }

  predicate BucketIssuesClean(b: Block, env: Env) {
    b.typ == "storage_bucket" ==>
      Has(b, "name")
  }

  lemma BucketIssuesPasses(b: Block, env: Env)
    ensures BucketIssues(b, env) == Pass <==> BucketIssuesClean(b, env)
  {
  }

  predicate BucketsIssuesClean(b: Block, env: Env) {
    (forall i :: 0 <= i < |b.body.blocks| ==> BucketIssuesClean(b.body.blocks[i], env))
    && AnyOfType(b.body.blocks, "storage_bucket")
  }

  lemma BucketsIssuesPasses(b: Block, env: Env)
    ensures BucketsIssues(b, env) == Pass <==> BucketsIssuesClean(b, env)
  {
    ThenPass(ForEach(b.body.blocks, env, BucketIssues), Ok(if AnyOfType(b.body.blocks, "storage_bucket") then [] else [Issue(RuleName, NoBucket, b.defRange)]));
    ForEachPass(b.body.blocks, env, BucketIssues);
    forall i | 0 <= i < |b.body.blocks| {
      BucketIssuesPasses(b.body.blocks[i], env);
    }
  }

  /**
   * Without any `storage_bucket` block, the `storage_bucket` loop draws exactly one issue,
   * "storage_bucket block must be specified", at `b`'s range.
   */
  lemma NoStorageBucketReported(b: Block, env: Env)
    requires !AnyOfType(b.body.blocks, "storage_bucket")
    ensures BucketsIssues(b, env) == Ok([Issue(RuleName, NoBucket, b.defRange)])
  {
    AnyOfTypeIff(b.body.blocks, "storage_bucket");
    ForEachPass(b.body.blocks, env, BucketIssues);
  }

  /** What `Check` does with one resource block. */
  function ResourceIssues(b: Block, env: Env): Outcome {
    var o := Ok(Missing(RuleName, b, RequiredAttrs, AttributeMustBeSpecified));
    var o := Then(o, NameLength(RuleName, b, env, "name", NameEmpty, NameTooLong));
    var o := Then(o, Enum(RuleName, b, env, "format", Formats, FormatMsg));
    Then(o, BucketsIssues(b, env))
  }

  method CheckResource(runner: Runner, b: Block) returns (err: Option<Error>)
    modifies runner
    ensures Produced(runner, old(runner.issues), err, ResourceIssues(b, runner.env))
  {
    err := None;
    CheckRequired(runner, RuleName, b, RequiredAttrs, AttributeMustBeSpecified);
    ghost var done := Ok(Missing(RuleName, b, RequiredAttrs, AttributeMustBeSpecified));
    ghost var step := NameLength(RuleName, b, runner.env, "name", NameEmpty, NameTooLong);
    err := CheckNameLength(runner, RuleName, b, "name", NameEmpty, NameTooLong);
    Extend(old(runner.issues), done, step);
    if err.Some? {
      return;
    }
    done := Then(done, step);
    step := Enum(RuleName, b, runner.env, "format", Formats, FormatMsg);
    err := CheckEnum(runner, RuleName, b, "format", Formats, FormatMsg);
    Extend(old(runner.issues), done, step);
    if err.Some? {
      return;
    }
    done := Then(done, step);
    step := BucketsIssues(b, runner.env);
    CheckBuckets(runner, b);
    err := None;
    Extend(old(runner.issues), done, step);
  }

  method Check(runner: Runner) returns (err: Option<Error>)
    modifies runner
    ensures Produced(runner, old(runner.issues), err, RunRule(runner.content, ResourceType, runner.env, ResourceIssues))
  {
    var resources := runner.GetResourceContent(ResourceType);
    if resources.Failure? {
      return Some(resources.error);
    }
    var blocks := resources.value;
    var i := 0;
    while i < |blocks|
      invariant 0 <= i <= |blocks|
      invariant Produced(runner, old(runner.issues), None, ForEach(blocks[..i], runner.env, ResourceIssues))
    {
      ForEachStep(blocks, i, runner.env, ResourceIssues);
      err := CheckResource(runner, blocks[i]);
      Extend(old(runner.issues), ForEach(blocks[..i], runner.env, ResourceIssues), ResourceIssues(blocks[i], runner.env));
      if err.Some? {
        ForEachStopsAtError(blocks, i + 1, runner.env, ResourceIssues);
        return;
      }
      i := i + 1;
    }
    assert blocks[..i] == blocks;
    return None;
  }

  /** What a resource must satisfy to draw no issue and no error. */
  predicate Clean(b: Block, env: Env) {
    (forall a :: a in RequiredAttrs ==> Has(b, a))
    && NameOk(b, env, "name")
    && StrIn(b, env, "format", Formats)
    && BucketsIssuesClean(b, env)
  }

  /** A resource draws no issue and no error exactly when it is clean. */
  lemma Passes(b: Block, env: Env)
    ensures ResourceIssues(b, env) == Pass <==> Clean(b, env)
  {
    var o0 := Ok(Missing(RuleName, b, RequiredAttrs, AttributeMustBeSpecified));
    var s1 := NameLength(RuleName, b, env, "name", NameEmpty, NameTooLong);
    ThenPass(o0, s1);
    var o1 := Then(o0, s1);
    var s2 := Enum(RuleName, b, env, "format", Formats, FormatMsg);
    ThenPass(o1, s2);
    var o2 := Then(o1, s2);
    var s3 := BucketsIssues(b, env);
    ThenPass(o2, s3);
    MissingNone(RuleName, b, RequiredAttrs, AttributeMustBeSpecified);
    NameLengthPass(RuleName, b, env, "name", NameEmpty, NameTooLong);
    EnumPass(RuleName, b, env, "format", Formats, FormatMsg);
    BucketsIssuesPasses(b, env);
  }
}
