/** rules/rule_ibm_is_dedicated_host_disk_management.go */
module DedicatedHostDiskManagement {
  import opened Wrappers
  import opened Hcl
  import opened Tflint
  import opened Checks

  const RuleName := "ibm_is_dedicated_host_disk_management"
  const ResourceType := "ibm_is_dedicated_host_disk_management"
  const RequiredAttrs := ["dedicated_host"]
  const NoDisks := Text("at least one disks block must be specified")
  const DiskAttrs := ["name", "id"]
  const DiskTemplate := Template("`", "` attribute must be specified in disks block")
  const DiskNameEmpty := Text("disk name cannot be empty")

  /** One nested block: a `disks` block needs `name` and `id`, and a non-empty name. */
  function DiskIssues(b: Block, env: Env): Outcome {
    if b.typ != "disks" then Pass else
    var o := Ok(Missing(RuleName, b, DiskAttrs, DiskTemplate));
    Then(o, Valid(RuleName, b, env, "name", NonEmpty, DiskNameEmpty))
  }

  method CheckDisk(runner: Runner, b: Block) returns (err: Option<Error>)
    modifies runner
    ensures Produced(runner, old(runner.issues), err, DiskIssues(b, runner.env))
  {
    if b.typ != "disks" {
      return None;
    }
    err := None;
    CheckRequired(runner, RuleName, b, DiskAttrs, DiskTemplate);
    ghost var done := Ok(Missing(RuleName, b, DiskAttrs, DiskTemplate));
    ghost var step := Valid(RuleName, b, runner.env, "name", NonEmpty, DiskNameEmpty);
    err := CheckValid(runner, RuleName, b, "name", NonEmpty, DiskNameEmpty);
    Extend(old(runner.issues), done, step);
  }

  /** The `disks` loop. */
  function DisksIssues(b: Block, env: Env): Outcome {
    ForEach(b.body.blocks, env, DiskIssues)
  }

  /** The loop over the blocks nested in `b`, acting on the `disks` blocks. */
  method CheckDisks(runner: Runner, b: Block) returns (err: Option<Error>)
    modifies runner
    ensures Produced(runner, old(runner.issues), err, DisksIssues(b, runner.env))
  {
    var blocks := b.body.blocks;
    var i := 0;
    while i < |blocks|
      invariant 0 <= i <= |blocks|
      invariant Produced(runner, old(runner.issues), None, ForEach(blocks[..i], runner.env, DiskIssues))
    {
      err := CheckDisksStep(runner, blocks, i, old(runner.issues));
      if err.Some? {
        ForEachStopsAtError(blocks, i + 1, runner.env, DiskIssues);
        return;
      }
      i := i + 1;
    }
    assert blocks[..i] == blocks;
    return None;
  }

  /** One iteration of the `disks` loop. */
  method CheckDisksStep(runner: Runner, blocks: seq<Block>, i: nat, ghost before: seq<Issue>) returns (err: Option<Error>)
    requires i < |blocks|
    requires Produced(runner, before, None, ForEach(blocks[..i], runner.env, DiskIssues))
    modifies runner
    ensures Produced(runner, before, err, ForEach(blocks[..i + 1], runner.env, DiskIssues))
  {
    ForEachStep(blocks, i, runner.env, DiskIssues);
    err := CheckDisk(runner, blocks[i]);
    Extend(before, ForEach(blocks[..i], runner.env, DiskIssues), DiskIssues(blocks[i], runner.env));
  }

  predicate DiskIssuesClean(b: Block, env: Env) {
    b.typ == "disks" ==>
      (forall a :: a in DiskAttrs ==> Has(b, a))
      && StrIs(b, env, "name", NonEmpty)
  }

  lemma DiskIssuesPasses(b: Block, env: Env)
    ensures DiskIssues(b, env) == Pass <==> DiskIssuesClean(b, env)
  {
    if b.typ == "disks" {
      var o0 := Ok(Missing(RuleName, b, DiskAttrs, DiskTemplate));
      var s1 := Valid(RuleName, b, env, "name", NonEmpty, DiskNameEmpty);
      ThenPass(o0, s1);
      MissingNone(RuleName, b, DiskAttrs, DiskTemplate);
      ValidPass(RuleName, b, env, "name", NonEmpty, DiskNameEmpty);
    }
  }

  predicate DisksIssuesClean(b: Block, env: Env) {
    (forall i :: 0 <= i < |b.body.blocks| ==> DiskIssuesClean(b.body.blocks[i], env))
  }

  lemma DisksIssuesPasses(b: Block, env: Env)
    ensures DisksIssues(b, env) == Pass <==> DisksIssuesClean(b, env)
  {
    ForEachPass(b.body.blocks, env, DiskIssues);
    forall i | 0 <= i < |b.body.blocks| {
      DiskIssuesPasses(b.body.blocks[i], env);
    }
  }

  /** What `Check` does with one resource block. */
  function ResourceIssues(b: Block, env: Env): Outcome {
    var o := Ok(Missing(RuleName, b, RequiredAttrs, MustBeSpecified));
    var o := Then(o, Ok(NoBlocks(RuleName, b, NoDisks)));
    Then(o, DisksIssues(b, env))
  }

  method CheckResource(runner: Runner, b: Block) returns (err: Option<Error>)
    modifies runner
    ensures Produced(runner, old(runner.issues), err, ResourceIssues(b, runner.env))
  {
    err := None;
    CheckRequired(runner, RuleName, b, RequiredAttrs, MustBeSpecified);
    ghost var done := Ok(Missing(RuleName, b, RequiredAttrs, MustBeSpecified));
    ghost var step := Ok(NoBlocks(RuleName, b, NoDisks));
    CheckNoBlocks(runner, RuleName, b, NoDisks);
    Extend(old(runner.issues), done, step);
    done := Then(done, step);
    step := DisksIssues(b, runner.env);
    err := CheckDisks(runner, b);
    Extend(old(runner.issues), done, step);
  }

  method Check(runner: Runner) returns (err: Option<Error>)
    modifies runner
    ensures Produced(runner, old(runner.issues), err, RunRule(runner.content, ResourceType, runner.env, ResourceIssues))
  {
    var resources := runner.GetResourceContent(ResourceType);
    if resources.Failure? {
      return Some(resources.error);
    }
    var blocks := resources.value;
    var i := 0;
    while i < |blocks|
      invariant 0 <= i <= |blocks|
      invariant Produced(runner, old(runner.issues), None, ForEach(blocks[..i], runner.env, ResourceIssues))
    {
      ForEachStep(blocks, i, runner.env, ResourceIssues);
      err := CheckResource(runner, blocks[i]);
      Extend(old(runner.issues), ForEach(blocks[..i], runner.env, ResourceIssues), ResourceIssues(blocks[i], runner.env));
      if err.Some? {
        ForEachStopsAtError(blocks, i + 1, runner.env, ResourceIssues);
        return;
      }
      i := i + 1;
    }
    assert blocks[..i] == blocks;
    return None;
  }

  /** What a resource must satisfy to draw no issue and no error. */
  predicate Clean(b: Block, env: Env) {
    (forall a :: a in RequiredAttrs ==> Has(b, a))
    && |b.body.blocks| > 0
    && DisksIssuesClean(b, env)
  }

  /** A resource draws no issue and no error exactly when it is clean. */
  lemma Passes(b: Block, env: Env)
    ensures ResourceIssues(b, env) == Pass <==> Clean(b, env)
  {
    var o0 := Ok(Missing(RuleName, b, RequiredAttrs, MustBeSpecified));
    var s1 := Ok(NoBlocks(RuleName, b, NoDisks));
    ThenPass(o0, s1);
    var o1 := Then(o0, s1);
    var s2 := DisksIssues(b, env);
    ThenPass(o1, s2);
    MissingNone(RuleName, b, RequiredAttrs, MustBeSpecified);
    DisksIssuesPasses(b, env);
  }
}
