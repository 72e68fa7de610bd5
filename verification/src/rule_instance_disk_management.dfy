/** rules/rule_ibm_is_instance_disk_management.go */
module InstanceDiskManagement {
  import opened Wrappers
  import opened Hcl
  import opened Tflint
  import opened Checks

  const RuleName := "ibm_is_instance_disk_management"
  const ResourceType := "ibm_is_instance_disk_management"
  const RequiredAttrs := ["instance"]
  const NoDisks := Text("at least one disks block must be specified")
  const DiskAttrs := ["id"]
  const DiskTemplate := Template("`", "` attribute must be specified in disks block")
  const DiskNameEmpty := Text("disk name cannot be empty when specified")
  const DiskNameTooLong := Text("disk name cannot be longer than 63 characters")

  /** One nested block: a `disks` block needs `id`, and a name it has must be 1 to 63 bytes long. */
  function DiskIssues(b: Block, env: Env): Outcome {
    if b.typ != "disks" then Pass else
    var o := Ok(Missing(RuleName, b, DiskAttrs, DiskTemplate));
    Then(o, NameLength(RuleName, b, env, "name", DiskNameEmpty, DiskNameTooLong))
  }

  method CheckDisk(runner: Runner, b: Block) returns (err: Option<Error>)
    modifies runner
    ensures Produced(runner, old(runner.issues), err, DiskIssues(b, runner.env))
  {
    if b.typ != "disks" {
      return None;
    }
    err := None;
    CheckRequired(runner, RuleName, b, DiskAttrs, DiskTemplate);
    ghost var done := Ok(Missing(RuleName, b, DiskAttrs, DiskTemplate));
    ghost var step := NameLength(RuleName, b, runner.env, "name", DiskNameEmpty, DiskNameTooLong);
    err := CheckNameLength(runner, RuleName, b, "name", DiskNameEmpty, DiskNameTooLong);
    Extend(old(runner.issues), done, step);
  }

  /** The `disks` loop, then the test on whether such a block exists. */
  function DisksIssues(b: Block, env: Env): Outcome {
    Then(ForEach(b.body.blocks, env, DiskIssues),
         Ok(if AnyOfType(b.body.blocks, "disks") then [] else [Issue(RuleName, NoDisks, b.defRange)]))
  }

  /** The loop over the blocks nested in `b`, acting on the `disks` blocks. */
  method CheckDisks(runner: Runner, b: Block) returns (err: Option<Error>)
    modifies runner
    ensures Produced(runner, old(runner.issues), err, DisksIssues(b, runner.env))
  {
    var blocks := b.body.blocks;
    var hasDisks := false;
    var i := 0;
    while i < |blocks|
      invariant 0 <= i <= |blocks|
      invariant hasDisks == AnyOfType(blocks[..i], "disks")
      invariant Produced(runner, old(runner.issues), None, ForEach(blocks[..i], runner.env, DiskIssues))
    {
      AnyOfTypeStep(blocks, i, "disks");
      if blocks[i].typ == "disks" {
        hasDisks := true;
      }
      err := CheckDisksStep(runner, blocks, i, old(runner.issues));
      if err.Some? {
        ForEachStopsAtError(blocks, i + 1, runner.env, DiskIssues);
        return;
      }
      i := i + 1;
    }
    assert blocks[..i] == blocks;
    ghost var loop := ForEach(blocks, runner.env, DiskIssues);
    if !hasDisks {
      runner.EmitIssue(RuleName, NoDisks, b.defRange);
    }
    Extend(old(runner.issues), loop, Ok(if AnyOfType(blocks, "disks") then [] else [Issue(RuleName, NoDisks, b.defRange)]));
    return None;
  }

  /** One iteration of the `disks` loop. */
  method CheckDisksStep(runner: Runner, blocks: seq<Block>, i: nat, ghost before: seq<Issue>) returns (err: Option<Error>)
    requires i < |blocks|
    requires Produced(runner, before, None, ForEach(blocks[..i], runner.env, DiskIssues))
    modifies runner
    ensures Produced(runner, before, err, ForEach(blocks[..i + 1], runner.env, DiskIssues))
  {
    ForEachStep(blocks, i, runner.env, DiskIssues);
    err := CheckDisk(runner, blocks[i]);
    Extend(before, ForEach(blocks[..i], runner.env, DiskIssues), DiskIssues(blocks[i], runner.env));
  }

  predicate DiskIssuesClean(b: Block, env: Env) {
    b.typ == "disks" ==>
      (forall a :: a in DiskAttrs ==> Has(b, a))
      && NameOk(b, env, "name")
  }

  lemma DiskIssuesPasses(b: Block, env: Env)
    ensures DiskIssues(b, env) == Pass <==> DiskIssuesClean(b, env)
  {
    if b.typ == "disks" {
      var o0 := Ok(Missing(RuleName, b, DiskAttrs, DiskTemplate));
      var s1 := NameLength(RuleName, b, env, "name", DiskNameEmpty, DiskNameTooLong);
      ThenPass(o0, s1);
      MissingNone(RuleName, b, DiskAttrs, DiskTemplate);
      NameLengthPass(RuleName, b, env, "name", DiskNameEmpty, DiskNameTooLong);
    }
  }

  predicate DisksIssuesClean(b: Block, env: Env) {
    (forall i :: 0 <= i < |b.body.blocks| ==> DiskIssuesClean(b.body.blocks[i], env))
    && AnyOfType(b.body.blocks, "disks")
  }

  lemma DisksIssuesPasses(b: Block, env: Env)
    ensures DisksIssues(b, env) == Pass <==> DisksIssuesClean(b, env)
  {
    ThenPass(ForEach(b.body.blocks, env, DiskIssues), Ok(if AnyOfType(b.body.blocks, "disks") then [] else [Issue(RuleName, NoDisks, b.defRange)]));
    ForEachPass(b.body.blocks, env, DiskIssues);
    forall i | 0 <= i < |b.body.blocks| {
      DiskIssuesPasses(b.body.blocks[i], env);
    }
  }

  /**
   * Without any `disks` block, the `disks` loop draws exactly one issue,
   * "at least one disks block must be specified", at `b`'s range.
   */
  lemma NoDisksReported(b: Block, env: Env)
    requires !AnyOfType(b.body.blocks, "disks")
    ensures DisksIssues(b, env) == Ok([Issue(RuleName, NoDisks, b.defRange)])
  {
    AnyOfTypeIff(b.body.blocks, "disks");
    ForEachPass(b.body.blocks, env, DiskIssues);
  }

  /** What `Check` does with one resource block. */
  function ResourceIssues(b: Block, env: Env): Outcome {
    var o := Ok(Missing(RuleName, b, RequiredAttrs, MustBeSpecified));
    Then(o, DisksIssues(b, env))
  }

  method CheckResource(runner: Runner, b: Block) returns (err: Option<Error>)
    modifies runner
    ensures Produced(runner, old(runner.issues), err, ResourceIssues(b, runner.env))
  {
    err := None;
    CheckRequired(runner, RuleName, b, RequiredAttrs, MustBeSpecified);
    ghost var done := Ok(Missing(RuleName, b, RequiredAttrs, MustBeSpecified));
    ghost var step := DisksIssues(b, runner.env);
    err := CheckDisks(runner, b);
    Extend(old(runner.issues), done, step);
  }

  method Check(runner: Runner) returns (err: Option<Error>)
    modifies runner
    ensures Produced(runner, old(runner.issues), err, RunRule(runner.content, ResourceType, runner.env, ResourceIssues))
  {
    var resources := runner.GetResourceContent(ResourceType);
    if resources.Failure? {
      return Some(resources.error);
    }
    var blocks := resources.value;
    var i := 0;
    while i < |blocks|
      invariant 0 <= i <= |blocks|
      invariant Produced(runner, old(runner.issues), None, ForEach(blocks[..i], runner.env, ResourceIssues))
    {
      ForEachStep(blocks, i, runner.env, ResourceIssues);
      err := CheckResource(runner, blocks[i]);
      Extend(old(runner.issues), ForEach(blocks[..i], runner.env, ResourceIssues), ResourceIssues(blocks[i], runner.env));
      if err.Some? {
        ForEachStopsAtError(blocks, i + 1, runner.env, ResourceIssues);
        return;
      }
      i := i + 1;
    }
    assert blocks[..i] == blocks;
    return None;
  }

  /** What a resource must satisfy to draw no issue and no error. */
  predicate Clean(b: Block, env: Env) {
    (forall a :: a in RequiredAttrs ==> Has(b, a))
    && DisksIssuesClean(b, env)
  }

  /** A resource draws no issue and no error exactly when it is clean. */
  lemma Passes(b: Block, env: Env)
    ensures ResourceIssues(b, env) == Pass <==> Clean(b, env)
  {
    var o0 := Ok(Missing(RuleName, b, RequiredAttrs, MustBeSpecified));
    var s1 := DisksIssues(b, env);
    ThenPass(o0, s1);
    MissingNone(RuleName, b, RequiredAttrs, MustBeSpecified);
    DisksIssuesPasses(b, env);
  }
}
